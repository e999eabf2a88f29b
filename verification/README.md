# QuickHack server: a verified model

QuickHack runs a second-hand phone business: inbound inspection, purchase confirmation, stock,
marketplace integration, administration. Most of its server is database transactions that must stay
right when workers crash, run late or are repeated. This project models those protocols, and the
self-contained algorithms beside them, in Dafny, and proves what they are for.

Every `$transaction` is one atomic step on a record of tables. A step that throws leaves the tables
as they were, so the protocol theorems quantify over all sequences of steps without side conditions:
workers may stop anywhere, leases may run out at any moment, stale claims may be used at any time.
Safety is not all: what each operation answers is stated apart from its body, in the `...Answers`
modules, from the history of a run or from the rows it met, and so is how far work that is not finished
can always get.

Code that updates rows or buffers in place appears twice: as a class or method with fields, arrays
and loops, proved against a function, and as that function, about which the theorems are stated.

| files | part of the server |
|---|---|
| `CommandProtocol`, `CommandInvariant`, `CommandResults`, `CommandService`, `CommandExecution`, `CommandAnswers`, `EvidenceTables`, `JointRuns` | integration commands: register, claim, dispatch, finalize, recover |
| `ProjectionProtocol`, `ProjectionInvariant`, `ProjectionResults`, `ProjectionAnswers`, `ScrubBacklog`, `ProjectionService` | projection jobs, inbox evidence, order-sheet scrubbing |
| `Keyset`, `DeviceList`, `SnapshotPaging`, `LateRows`, `AdminLog`, `DeviceHistory` | cursor paging and the CSV export |
| `Words`, `Arithmetic`, `Base32`, `ShiftRegister`, `Crc32`, `Container`, `ZipFormat`, `ZipRoundTrip`, `ZipFields`, `ZipForeign`, `ZipFile` | base32, CRC-32, ZIP container |
| `JsonRewriter`, `JsonIdempotence`, `JsonGrammar`, `JsonMeaning`, `JsonLossless`, `JsonRejections` | lossless integers in JSON |
| `LoginAttempts`, `LoginAnswers`, `LoginService`, `Totp`, `TotpRuns`, `TotpAnswers`, `TotpService` | login buckets and one-time codes |
| `QuantityLedger`, `LedgerRuns`, `LedgerAnswers`, `LedgerAudit` | the inventory quantity ledger and its audit |
| `PgReservations`, `PgAnswers`, `PgService` | PG number reservations and the inspection save |
| `ModelSequence`, `PurchaseItems`, `Purchase`, `PurchaseKeys`, `PurchaseRuns`, `PurchaseWorld`, `PurchaseKept`, `PurchaseResults`, `PurchaseAnswers`, `PurchaseService` | purchase confirmation and model numbers |

## Where the code differs from what one would expect

Each of these is proved; where the expected property holds under a condition, the condition is exact.

- The device list's default sort keeps milliseconds in the table and drops them in the cursor
  (`quickhack_shared/core/time.ts:60-64`, `109-113`). Descending pages can lose a row, ascending pages
  can repeat for ever. `DeviceList.UpdatedAtPagesIffSafe` says exactly when the pages are right.
- The JSON rewriter repairs some texts that are not JSON: a long integer with a leading zero, and a
  long integer used as a member name without quotes, both parse after rewriting. These are the only
  rejections it loses (`JsonRejections.RewritingAcceptsTheSameIffUnmasked`).
- A login key can collect 2*max-2 counted failures in less than the window, not max
  (`LoginAttempts.FailureBound`; met for both kinds of keys by `LoginAttempts.BoundIsMet` and
  `LoginAttempts.BoundIsMetByAddress`). The credential key joins address and name with an unescaped
  colon, so two identities can share a bucket: exactly when one is the other cut at a different colon
  (`LoginAttempts.SameKeyIff`). Which identities have such a partner among those a server admits is
  said by `LoginAttempts.HasPartnerIff`.
- Stock from before the ledger: every creation demands a SKU
  (`quickhack_server/inventory/inventory-quantity-ledger-service.ts:507-510`) and nothing takes one away,
  so a stocked device without a SKU is a row the ledger never counted, which the code's branch for a
  missing SKU foresees. A status change takes such a row out of a balance it was never in
  (`LedgerRuns.TransitionCountsIffClassified`), and its first classification posts one reclassification
  movement where the audit wants two (`LedgerAudit.FirstClassificationIsReported`).
- The ledger itself accepts a reused operation key and then changes a row without posting
  (`LedgerRuns.StepKeepsIff`); the purchase flow never does so (`PurchaseResults.LedgerStaysSound`). The
  audit never compares a balance with the sum of its movements (`LedgerAudit.CleanIsBalancedIffSumsMatch`).
- A snapshot reading shows a row that was not there at first if it appears late under a small id, as a
  slow transaction can make it, and sorts behind what was read
  (`LateRows.PagesAreTheSnapshotIffUndisturbed`).
- A model number can be given twice only if a device row was written from outside the code with blanks
  around its model (`ModelSequence.NewNumberIsHighestIff`). Every writer in the code trims the model, and
  then numbers rise and differ for ever (`PurchaseResults.NumbersAreNeverGivenTwice`,
  `PurchaseResults.DevicesDiffer`).

## Model

| member | source | states |
|---|---|---|
| CommandResults.AtMostOneCall | quickhack_server/integration/command-service.ts:106-339 | Over every run of registrations, claims, crashes, lease expiries, recoveries and late workers the provider is called at most once per operation key, and a call that happened belongs to an attempt recorded as gone out |
| CommandResults.AtMostOneDispatchedAttempt | quickhack_server/integration/command-service.ts:313-339 | At most one attempt of a command ever leaves CREATED for DISPATCHED, and it is the last attempt the command gets |
| CommandResults.NeverRequeuedAfterDispatch | quickhack_server/integration/command-service.ts:520-626 | Once an attempt went out no later action makes the command PENDING or adds an attempt |
| CommandResults.EvidenceAgreesWithState | quickhack_server/integration/command-service.ts:345-461 | A reachable command has exactly one evidence row, with its outcome, when terminal and none otherwise; SUCCEEDED and NOT_APPLIED rest on a RESPONSE_RECEIVED attempt |
| CommandResults.JobsHangOnSuccess | quickhack_server/integration/command-service.ts:427-445 | Projection jobs of commands hang only on SUCCEEDED evidence |
| CommandResults.ClosedIsFinal | quickhack_server/integration/command-service.ts:264-285 | A terminal command, its attempts and its evidence never change again, and it never gets a second evidence row |
| CommandInvariant.RecoverySees | quickhack_server/integration/command-service.ts:556-600 | Recovery requeues only over a CREATED last attempt and past that branch meets only a DISPATCHED one |
| CommandInvariant.OwnedIsNewest | quickhack_server/integration/command-service.ts:287-311 | The claim that owns a command holds its last attempt, CREATED or DISPATCHED, and every earlier attempt failed locally |
| CommandInvariant.MarkKeeps | quickhack_server/integration/command-service.ts:313-339 | Marking keeps the table invariant, makes the claim's attempt one that went out, and succeeds only when no attempt of the command ever had |
| CommandInvariant.RunKeeps | quickhack_server/integration/command-service.ts:106-626 | Every run keeps the whole invariant of tables, workers and calls, and takes nothing recorded back |
| CommandAnswers.RegistrationAcceptedIff | quickhack_server/integration/command-service.ts:106-180 | Over every run a registration with its fields filled in is accepted if and only if its key is new or provider, type and digest are those that first came under the key, read off the list of actions; any other is a conflict |
| CommandAnswers.AcceptedAgree | quickhack_server/integration/command-service.ts:168-174 | Any two accepted registrations of one key carry the same provider, operation type and digest |
| CommandAnswers.StagesInOrder | quickhack_server/integration/command-service.ts:182-626 | In every run a command only moves from waiting to claimed to gone out; FAILED_LOCAL is reached only before the request went out and every other outcome only after it |
| CommandAnswers.NotSentBefore | quickhack_server/integration/command-service.ts:463-518 | A command that waits, is merely claimed or ended as FAILED_LOCAL was never sent to the provider |
| CommandAnswers.OnlyIssuedClaimsAct | quickhack_server/integration/command-service.ts:264-311 | In every reachable state a claim that was not issued, whatever it says of attempt, lease token and generation, can neither mark, finalize nor fail |
| CommandAnswers.LeaseProtects | quickhack_server/integration/command-service.ts:526-546 | After a claim, until the lease ends, the command stays held under that claim unless it is closed, whatever others do |
| CommandAnswers.NoCommandIsStuck | quickhack_server/integration/command-service.ts:520-626 | In every reachable state a command that is not terminal can be claimed when it waits, and from the end of its lease recovery puts it back, or closes it AMBIGUOUS once it had gone out |
| CommandAnswers.WaitingCommandRuns | quickhack_server/integration/command-service.ts:643-734 | From every reachable state a waiting command can be executed: one call goes out, the command ends as the answer says, the evidence keeps the answer word for word, and the jobs of a success are those of the classified handler keys |
| CommandAnswers.PreparationFails | quickhack_server/integration/command-service.ts:463-518 | A failing preparation closes the command as FAILED_LOCAL without call, payload or jobs |
| CommandAnswers.GivenUpSaysSo | quickhack_server/integration/command-service.ts:580-616 | A command given up after it went out has evidence that says so, and no jobs |
| CommandService.Service.Register | quickhack_server/integration/command-service.ts:106-180 | The in-place registration is the insert-or-observe step, with the digest conflict |
| CommandService.Service.ClaimNext | quickhack_server/integration/command-service.ts:182-262 | Claims the oldest PENDING command not locked elsewhere, as one claim step, or nothing when there is none |
| CommandService.Service.MarkDispatched | quickhack_server/integration/command-service.ts:313-339 | The in-place marking is the marking step under the owner's claim |
| CommandService.Service.Finalize | quickhack_server/integration/command-service.ts:345-461 | The in-place finalization is the closing step: attempt, command, evidence and jobs together, or nothing |
| CommandService.Service.FailBeforeDispatch | quickhack_server/integration/command-service.ts:463-518 | The in-place local failure is the step that closes an undispatched command |
| CommandService.Service.SelectExpired | quickhack_server/integration/command-service.ts:526-546 | Chooses expired, unlocked commands, earliest lease first, and leaves one out only when the batch is full |
| CommandService.Service.RecoverExpired | quickhack_server/integration/command-service.ts:520-626 | A recovery batch recovers each candidate once or rolls everything back; its two counters are the commands that went back to PENDING and those closed AMBIGUOUS |
| CommandService.RecoverAllIsRun | quickhack_server/integration/command-service.ts:550-626 | A committed recovery batch equals the run of its single recoveries, so the protocol theorems cover it |
| CommandExecution.RefusedIffContradictory | quickhack_server/integration/command-service.ts:345-375 | Finalization refuses a worker's report exactly when an adapter's claim contradicts the response it holds |
| CommandExecution.DispatchedCommandCloses | quickhack_server/integration/command-service.ts:643-734 | The owner of a dispatched attempt closes it with the reported outcome, or, when its report is refused, recovery after the lease closes it AMBIGUOUS |
| ProjectionResults.ExactlyOnce | quickhack_server/integration/projection-service.ts:46-306 | Over every run with expired leases, reclaims by either function, failures and stale owners, an effect commits at most once per evidence and handler, and a job is SUCCEEDED exactly when its effect and operation key are committed |
| ProjectionResults.HandlersReadOriginals | quickhack_server/integration/projection-service.ts:230-306 | Every committed effect read SUCCEEDED evidence as recorded, never a scrubbed row |
| ProjectionResults.OwnerAlwaysRunsHandler | quickhack_server/integration/projection-service.ts:248-290 | Within the protocol the operation key's replay branch is never taken: the owner always runs its handler |
| ProjectionResults.SupersededForever | quickhack_server/integration/projection-service.ts:46-165 | A superseded claim never owns its job again |
| ProjectionAnswers.NoJobIsStuck | quickhack_server/integration/projection-service.ts:69-83 | In every reachable state an unfinished job can be claimed at once when it waits or has failed, and from the end of the lease, and no sooner, when it is held; the claim's apply with a succeeding handler makes it SUCCEEDED with exactly one effect |
| ProjectionAnswers.FailureIsRetried | quickhack_server/integration/projection-service.ts:194-228 | A handler that throws leaves nothing but a FAILED job that can be claimed again at once |
| ProjectionAnswers.ClaimIsProtected | quickhack_server/integration/projection-service.ts:117-165 | Until the lease of a claim ends nobody else gets the job, whatever others do |
| ProjectionAnswers.JobsAreTheHandlers | quickhack_server/integration/inbox-service.ts:118-164 | In every run the jobs of evidence are those of the handlers it was recorded with when it succeeded, and none otherwise |
| ProjectionResults.EffectIffKey | quickhack_server/integration/projection-service.ts:230-306 | In every state that meets the invariant the committed effects of a job are one with its operation key and none without |
| ProjectionInvariant.RunKeeps | quickhack_server/integration/projection-service.ts:46-306 | Recording, claiming, applying, failing and scrubbing keep the invariant of tables, claims and effects in every run |
| ProjectionResults.ScrubIsSafe | quickhack_server/integration/integration-evidence-lifecycle.ts:104-170 | Evidence that differs from what was recorded is a minimized order sheet whose jobs have all SUCCEEDED for good, and no later effect reads it |
| ProjectionAnswers.ScrubKeepsTheSummary | quickhack_server/integration/integration-evidence-lifecycle.ts:25-50 | However often scrubbing runs, a changed row has lost its payload and kept source, type, outcome, time and the summary of the recorded result: the number of rows and whether a page followed, or the code of the failure |
| ProjectionAnswers.FinishedIsScrubbed | quickhack_server/integration/integration-evidence-lifecycle.ts:123-160 | An order sheet whose payload or orders are still there loses them by scrubbing exactly when all its jobs have SUCCEEDED |
| ProjectionService.InboxRowKeeps | quickhack_server/integration/inbox-service.ts:118-164 | A stored payload keeps text and result word for word, and minimizing it at once is scrubbing it later |
| ScrubBacklog.ScrubOneShrinks | quickhack_server/integration/integration-evidence-lifecycle.ts:71-86 | Scrubbing a candidate takes exactly that row out of the eligible set |
| ScrubBacklog.PassShrinks | quickhack_server/integration/integration-evidence-lifecycle.ts:104-170 | A pass leaves exactly the eligible rows it did not reach, and all jobs |
| ScrubBacklog.BacklogAfterPasses | quickhack_server/integration/integration-evidence-lifecycle.ts:88-170 | With no new evidence n passes lower the backlog by n batch sizes, down to none |
| ProjectionService.Service.RecordInbox | quickhack_server/integration/inbox-service.ts:118-164 | Evidence and one job per distinct handler are made in one step |
| ProjectionService.Service.ClaimById | quickhack_server/integration/projection-service.ts:117-165 | The claim by id is the claim step of a claimable job and nothing otherwise |
| ProjectionService.Service.ClaimNext | quickhack_server/integration/projection-service.ts:46-115 | The queue claim takes the oldest claimable job by one claim step |
| ProjectionService.Service.Apply | quickhack_server/integration/projection-service.ts:230-306 | The in-place run of a handler is the apply step, or leaves everything when it throws |
| ProjectionService.Service.Scrub | quickhack_server/integration/integration-evidence-lifecycle.ts:104-170 | The scrub loop over its candidates leaves what the scrubbing pass says, and counts the rows it changed |
| JointRuns.AtMostOneCall | quickhack_server/integration/command-service.ts:106-734 | The provider is called at most once per operation key also while projections and scrubbing work on the same evidence and jobs |
| JointRuns.DispatchAndClosureLast | quickhack_server/integration/command-service.ts:345-626 | In such joint runs too a dispatched command is never requeued and a closed one never changes |
| JointRuns.ExactlyOnce | quickhack_server/integration/projection-service.ts:46-306 | In such joint runs too an effect commits once per job, for evidence of commands and of the inbox |
| JointRuns.EvidenceAgreesWithState | quickhack_server/integration/command-service.ts:345-461 | In such joint runs too a command has one evidence row, whole or scrubbed, with its outcome, when terminal and none otherwise, and SUCCEEDED and NOT_APPLIED rest on a RESPONSE_RECEIVED attempt |
| JointRuns.JobsHangOnSuccess | quickhack_server/integration/command-service.ts:427-445 | In such joint runs every job, of a command or of the inbox, hangs on SUCCEEDED evidence |
| JointRuns.ScrubIsSafe | quickhack_server/integration/integration-evidence-lifecycle.ts:104-170 | In such joint runs too evidence that differs from what was recorded is a minimized order sheet whose jobs have SUCCEEDED for good, and no later effect reads it |
| Keyset.FollowReadsOn | quickhack_server/core/database/keyset-page.ts:194-238 | If the request after i rows always answers with the rows that follow them, following cursors with any page sizes reads the list without gap or repetition |
| Keyset.RestAfter | quickhack_server/inventory/device-list-query-service.ts:550-577 | Keeping what lies after row i of the sorted list and sorting it gives exactly the rest of that list |
| DeviceList.ExactCursorPagesAreTheList | quickhack_server/inventory/device-list-query-service.ts:550-577 | Text and number sorts: in either direction and with any page sizes the pages are the matching rows, each once, ordered by null rank, value and device id |
| DeviceList.ListingIsOrdered | quickhack_server/inventory/device-list-query-service.ts:550-577 | The list holds every matching row once, rows with a value before rows without, by value in the direction asked for, and devices of one value by descending id |
| DeviceList.PagesAreTheListIffCutsOk | quickhack_server/inventory/device-list-query-service.ts:659-704 | All page sizes read the list right if and only if the cursor predicate separates the list at every row |
| DeviceList.UpdatedAtPagesIffSafe | quickhack_server/inventory/device-list-query-service.ts:561-577 | The updatedAt sort reads its list right for all page sizes if and only if the stored times are safe for a cursor in whole seconds |
| DeviceList.DescendingLosesARow | quickhack_server/inventory/device-list-query-service.ts:676-677 | Two devices saved within one second, pages of one, newest first: the older is never shown |
| DeviceList.AscendingRepeatsForever | quickhack_server/inventory/device-list-query-service.ts:676-677 | A list saved within one second, oldest first: the next page is always the first page again |
| SnapshotPaging.PagesAreTheSnapshot | quickhack_server/admin/admin-log-query-service.ts:401-488 | Whatever rows with larger ids arrive between requests, the pages of any sizes are the sorted matching rows of the first request |
| LateRows.PagesAreTheSnapshotIffUndisturbed | quickhack_server/admin/admin-log-query-service.ts:401-425 | On tables that only gain rows the pages are the first request's list for all page sizes if and only if no request finds a matching row that came late under an id below the snapshot and sorts behind what must have been read by then |
| AdminLog.LogPagesAreTheSnapshot | quickhack_server/admin/admin-log-query-service.ts:237-244 | Activity and job logs: the pages are the filtered entries of the first request, newest first |
| AdminLog.LogIsNewestFirst | quickhack_server/admin/admin-log-query-service.ts:401-425 | The list of a log holds the entries that pass the filters, each once, newest first, those of one instant by descending id |
| AdminLog.LineByLine | quickhack_server/admin/admin-log-query-service.ts:556-586 | The file is a byte order mark, the header line and a line for each entry, every line ended by CR LF |
| AdminLog.Download | quickhack_server/admin/admin-log-query-service.ts:556-586 | Pulling the CSV stream until it closes sends exactly the header and the entries that matched when it began, in order, whatever is logged meanwhile |
| AdminLog.CsvStream.Send | quickhack_server/admin/admin-log-query-service.ts:564-582 | A page is sent after the header when it is the first, and closes the stream behind the last |
| DeviceHistory.HistoryPagesAreTheSnapshot | quickhack_server/inventory/device-history-query-service.ts:105-183 | The pages of a device's history section are its rows up to the first page's largest id, and their number is the total every page reports |
| DeviceHistory.SectionIsNewestFirst | quickhack_server/inventory/device-history-query-service.ts:105-183 | A section lists the device's rows, each once, by descending id |
| Base32.Encode | quickhack_server/auth/totp-service.ts:48-62 | The loop with its never-masked 32-bit accumulator computes the encoding function |
| Base32.Decode | quickhack_server/auth/totp-service.ts:64-79 | The decoding loop computes the decoding function for every text |
| Base32.EncodedEncodes | quickhack_server/auth/totp-service.ts:48-62 | As numbers, the letters written are the bytes shifted to a multiple of five bits, as section 6 of RFC 4648 asks |
| Base32.EncodingIsUnique | quickhack_server/auth/totp-service.ts:48-62 | A byte string has one encoding, of ceil(8n/5) letters |
| Base32.DecodedDecodes | quickhack_server/auth/totp-service.ts:64-79 | On any text the decoder gives the whole bytes among the bits of its letters |
| Base32.RoundTrip | quickhack_server/auth/totp-service.ts:48-79 | Decoding an encoding gives the bytes back, for every byte sequence |
| Base32.LettersAreTheAlphabet | quickhack_server/auth/totp-service.ts:25-25 | The letters are those of Table 3 of RFC 4648 |
| Base32.EachCharacterIsRead | quickhack_server/auth/totp-service.ts:64-79 | The decoder reads every character in turn, in upper case, and of that the letters of the alphabet alone |
| Crc32.MakeTable | quickhack_server/core/xlsx-zip.ts:14-24 | The 256 entries are the bit-by-bit reductions of their indices by 0xedb88320 |
| Crc32.LookupStep | quickhack_server/core/xlsx-zip.ts:26-34 | One table lookup and shift equals eight single-bit steps, for every register value |
| Crc32.Checksum | quickhack_server/core/xlsx-zip.ts:26-34 | The table loop gives the bit-by-bit CRC-32 of every byte sequence |
| Crc32.BurstChangesCrc | quickhack_server/core/xlsx-zip.ts:26-34 | Changing up to four neighbouring bytes changes the checksum, whatever surrounds them |
| ZipFile.WriteEntries | quickhack_server/core/xlsx-zip.ts:122-183 | Writes the archive of the entries, with every field as the APPNOTE asks, or throws exactly when a field does not fit its 16 or 32 bits |
| ZipFields.WrittenIsArchive | quickhack_server/core/xlsx-zip.ts:122-183 | For every list within the limits each local and directory header, read back byte by byte where sections 4.3.7, 4.3.12 and 4.3.16 of APPNOTE put its fields, holds version, flag, method, stamp, the CRC-32 of the data, both sizes, the lengths and the offset of its entry; the end record holds the counts and where the directory lies; and there is no byte besides |
| ZipFile.FindEnd | quickhack_server/core/xlsx-zip.ts:36-46 | Finds the last end record in range, and fails only when there is none |
| ZipFile.ReadEntries | quickhack_server/core/xlsx-zip.ts:48-106 | Reads any buffer as the reading function says, from its last end record |
| ZipForeign.ForeignIsRead | quickhack_server/core/xlsx-zip.ts:36-106 | Any archive, with extra fields, comments, gaps, folders and compressed data, is read from its end record and gives its files in order with the data unpacked, or the error of the first file that is damaged or packed otherwise |
| ZipFile.RoundTrip | quickhack_server/core/xlsx-zip.ts:48-183 | Writing then reading gives the entries in order without names ending in a slash, for every list within the field limits, and throws for all others |
| ZipRoundTrip.ReadInvertsWrite | quickhack_server/core/xlsx-zip.ts:48-183 | The archive's last end record is its own, and reading from there gives back the entries without directories |
| ZipRoundTrip.OffsetsPointHome | quickhack_server/core/xlsx-zip.ts:140-165 | Each central header's offset points at the local header of its own entry (sections 4.3.7 and 4.3.12 of APPNOTE) |
| Container.LoopReadsArchive | quickhack_server/core/xlsx-zip.ts:55-103 | A reader that understands each record and finds the next reads the whole central directory |
| JsonRewriter.QuoteUnsafeIntegers | quickhack_server/integration/schema-validation.ts:51-112 | The scanning loop terminates on every text and computes the rewriting function |
| JsonRewriter.ShortcutAgreesWithValue | quickhack_server/integration/schema-validation.ts:37-49 | The 16-digit shortcut never decides differently from comparing the value with 2^53-1 |
| JsonIdempotence.QuoteTwice | quickhack_server/integration/schema-validation.ts:51-112 | Rewriting twice is rewriting once, on every text, well formed or not |
| JsonMeaning.TokensLifted | quickhack_server/integration/schema-validation.ts:51-112 | The rewritten text has the same lexemes, the unsafe integers among them as strings |
| JsonLossless.MeaningIsLifted | quickhack_server/integration/schema-validation.ts:118-133 | For every JSON text parsing the rewriting gives the same tree with exactly the integers above 2^53-1 in magnitude as strings of their digits |
| JsonLossless.SafeTreesStay | quickhack_server/integration/schema-validation.ts:118-133 | A tree is unchanged exactly when it holds no unsafe integer, and the result never holds one |
| JsonRejections.RewritingAcceptsTheSameIffUnmasked | quickhack_server/integration/schema-validation.ts:51-133 | Every text is JSON if and only if its rewriting is JSON and no integer put into quotes has a leading zero or stands, after blanks, before a colon |
| JsonLossless.LeadingZerosPass | quickhack_server/integration/schema-validation.ts:37-49 | Witnesses: every unsafe integer with a leading zero is rejected as JSON but accepted after rewriting |
| JsonLossless.BareNamesPass | quickhack_server/integration/schema-validation.ts:51-112 | Witnesses: an unquoted unsafe integer as a member name is rejected as JSON but accepted after rewriting |
| LoginAttempts.FailureBound | quickhack_server/auth/login-attempt-service.ts:93-141 | With a monotone clock and between successes of a key, an interval shorter than five minutes holds at most 2*max-2 counted failures |
| LoginAnswers.AnswerIsTold | quickhack_server/auth/login-attempt-service.ts:167-225 | Every login of a run with a monotone clock is answered as the logins before it say, told without buckets: Blocked, with the seconds left, while a full count of failures under either key keeps out, whatever verification would say, and otherwise as verification says; a blocked login changes nothing |
| LoginAnswers.FullKeepsOut | quickhack_server/auth/login-attempt-service.ts:189-192 | From the failure that fills a count until ten minutes later every login under that key is Blocked and changes no bucket, whatever else goes on |
| LoginAttempts.BoundIsMet | quickhack_server/auth/login-attempt-service.ts:93-141 | The bound is met by the credential bucket of every identity, with eight failures |
| LoginAttempts.BoundIsMetByAddress | quickhack_server/auth/login-attempt-service.ts:93-141 | The bound is met by the bucket of every address, with thirty-eight failures under as many names |
| LoginAttempts.FullMeansBlocked | quickhack_server/auth/login-attempt-service.ts:93-141 | The count stays between 1 and max, and blocked_until is set, ten minutes from the last failure, exactly when it is max |
| LoginAttempts.CapNeverBinds | quickhack_server/auth/login-attempt-service.ts:104-119 | When a failure is counted past the gate, Math.min never cuts the count |
| LoginAttempts.CleanupIsInvisible | quickhack_server/auth/login-attempt-service.ts:143-165 | For every run with a monotone clock the answers equal those of the same run without any deletes |
| LoginAttempts.SameKeyIff | quickhack_server/auth/login-attempt-service.ts:66-79 | Two identities share a credential key if and only if the longer address continues the shorter by a colon and a text with which, and a colon, the other's name begins |
| LoginAttempts.HasPartnerIff | quickhack_server/auth/login-attempt-service.ts:46-79 | For any set of admitted addresses and names, an identity shares its credential key with another admitted one if and only if cutting its address or its name at one of its colons gives an admitted identity |
| LoginAttempts.KeysCanCollide | quickhack_server/auth/login-attempt-service.ts:66-79 | A witness: an IPv6 address and a name with a colon |
| LoginService.Service.RemainingBlockedSeconds | quickhack_server/auth/login-attempt-service.ts:81-91 | The loop returns the largest remaining block of the keys |
| LoginService.Service.UpdateFailureBucket | quickhack_server/auth/login-attempt-service.ts:93-141 | The upsert is one counted failure of the bucket |
| LoginService.Service.Cleanup | quickhack_server/auth/login-attempt-service.ts:143-165 | Deletes stale buckets of the address, stalest first, all of them unless the limit is reached, and nothing else |
| LoginService.Service.Execute | quickhack_server/auth/login-attempt-service.ts:167-225 | One login in place is the login step: gate, verification, counting, cleanup |
| TotpRuns.StepsIncrease | quickhack_server/auth/totp-service.ts:423-502 | From confirmation on accepted steps never decrease, and strictly increase where reuse was not allowed (section 5.2 of RFC 6238) |
| TotpRuns.LockedFromFive | quickhack_server/auth/totp-service.ts:470-502 | failed_count is the number of failures since the last success, and locked_until is set, five minutes after the latest, exactly from the fifth on |
| TotpAnswers.AnswerIsDeserved | quickhack_server/auth/totp-service.ts:423-502 | Every entry of every run gets the one answer it deserves, told from what was accepted, recovered and refused before: Locked with the seconds left while the lock lasts, a recovery for an unused code of the latest list, an acceptance exactly for the first step around now with this code when it is not spent, and a counted failure for all else |
| TotpAnswers.LockKeepsOut | quickhack_server/auth/totp-service.ts:435-444 | From the fifth failure until five minutes after the latest nothing is accepted, recovered or counted, right codes included, and the account stays as it is |
| TotpAnswers.SixDigitsCount | quickhack_server/auth/totp-service.ts:112-114 | Of what is typed the first six digits count and none behind them |
| TotpAnswers.OnlyDigitsCount | quickhack_server/auth/totp-service.ts:112-114 | Digits are read in the order they are typed, and nothing between them is |
| TotpAnswers.OnlyAlphanumericsCount | quickhack_server/auth/totp-service.ts:125-127 | Of a recovery code capital letters and digits are read, in order |
| TotpRuns.RecoveryOnce | quickhack_server/auth/totp-service.ts:319-331 | No recovery code is accepted twice, however often the codes are replaced |
| TotpRuns.FailureBound | quickhack_server/auth/totp-service.ts:470-502 | T seconds without a success admit at most 5 + floor(T/300) counted failures |
| TotpService.FindStep | quickhack_server/auth/totp-service.ts:152-161 | The loop over the window finds its first matching step |
| TotpService.Service.VerifyUserCode | quickhack_server/auth/totp-service.ts:423-502 | The in-place verification is the verification step on the credential and the recovery codes |
| LedgerRuns.RunIsBalanced | quickhack_server/inventory/inventory-quantity-ledger-service.ts:97-299 | In every run whatsoever, reused and refused keys included, each balance is the sum of its deltas and its last after_quantity, and each movement starts where the latest one of its balance ended |
| LedgerRuns.StepKeepsIff | quickhack_server/inventory/inventory-quantity-ledger-service.ts:301-622 | A create, remove, transition or reclassify keeps a sound ledger sound, and the count of rows right, if and only if it has no effect on a row's creation, removal or SKU or its key is new |
| LedgerRuns.RunsStayGoodIff | quickhack_server/inventory/inventory-quantity-ledger-service.ts:97-622 | All along a run balances are the sums of their deltas, their last after_quantity and the numbers of rows with that SKU and status, and all movement groups are legal, if and only if no row is created, removed or reclassified under a used key; refused and idle actions may repeat theirs |
| LedgerRuns.CreateKeepsIffKeyIsNew | quickhack_server/inventory/inventory-quantity-ledger-service.ts:500-526 | A creation keeps a sound ledger sound if and only if its operation key was not used before |
| LedgerRuns.RemoveKeepsIffKeyIsNew | quickhack_server/inventory/inventory-management-service.ts:886-908 | So does the removal of a row |
| LedgerRuns.TransitionKeeps | quickhack_server/inventory/inventory-quantity-ledger-service.ts:301-498 | A transition keeps a sound ledger sound under any key, and moves the row as its policy allows or not at all |
| LedgerRuns.ReclassifyKeepsIffKeyIsNew | quickhack_server/inventory/inventory-quantity-ledger-service.ts:544-622 | A reclassification that posts keeps a sound ledger sound if and only if its key is new; one that posts nothing always does |
| LedgerRuns.TransitionCountsIffClassified | quickhack_server/inventory/inventory-quantity-ledger-service.ts:415-498 | For every expected status, policy and key, a transition that succeeds keeps the count of rows if and only if it changed nothing or the device had a SKU |
| LedgerRuns.LegalGroupIs | quickhack_server/inventory/inventory-quantity-ledger-audit-service.ts:19-42 | A creation is one movement of plus one, a removal one of minus one, a transfer or reclassification one of each |
| LedgerAnswers.TransitionAnswers | quickhack_server/inventory/inventory-quantity-ledger-service.ts:301-498 | In a sound ledger a transition under an unused key moves the row with its balances exactly when the row is there, both statuses are known, it has the expected status, the policy allows the move and the SKU is complete; a balance never stands in the way |
| LedgerAnswers.CreateAnswers | quickhack_server/inventory/inventory-quantity-ledger-service.ts:500-526 | So a creation adds the row and one to its balance exactly when the device is there, has no row and leads to a SKU |
| LedgerAnswers.RemoveAnswers | quickhack_server/inventory/inventory-management-service.ts:886-920 | So a removal takes device, row and one of the balance away whenever the device is there |
| LedgerAnswers.ReclassifyAnswers | quickhack_server/inventory/inventory-quantity-ledger-service.ts:544-622 | So a new description moves a stocked device to its new SKU with its balances exactly when its status may be edited |
| LedgerAnswers.MovementsAreForGood | quickhack_server/inventory/inventory-quantity-ledger-service.ts:97-299 | In every run movements are only added, none changes, and no two share operation key and suffix |
| LedgerAnswers.RepeatedPostingIff | quickhack_server/inventory/inventory-quantity-ledger-service.ts:97-231 | At any later time a posting under a used key is accepted if and only if it is the very movement that stands there, and then posts nothing |
| LedgerAnswers.TransitionSentAgain | quickhack_server/inventory/inventory-quantity-ledger-service.ts:340-413 | A transition that moved its row can be sent again at any later time, wherever the row has gone since, and moves nothing; its key for another row, target or source is refused |
| LedgerAudit.NoViolationsIffClean | quickhack_server/inventory/inventory-quantity-ledger-audit-service.ts:19-168 | The audit reports zero violations exactly when groups are legal, statuses and types known, tails and counts match and every row is classified |
| LedgerAudit.EachCountedOnce | quickhack_server/inventory/inventory-quantity-ledger-audit-service.ts:84-168 | The audit's number is the number of things that are wrong: rows, balances, counts, groups, tails and types, each counted once |
| LedgerAudit.AuditPassesIffKeysAreNew | quickhack_server/inventory/inventory-quantity-ledger-audit-service.ts:84-168 | All along a run the audit reports no violation if and only if no row was created, removed or reclassified under a used key |
| LedgerAudit.CleanIsBalancedIffSumsMatch | quickhack_server/inventory/inventory-quantity-ledger-audit-service.ts:44-78 | A ledger without violations, whose movements belong to existing balances, is balanced if and only if its sums match its tails at the end, and always when its movements chain up |
| LedgerAudit.ChainedIffSumsMatch | quickhack_server/inventory/inventory-quantity-ledger-service.ts:233-290 | Movements chain up if and only if after each of them every sum of deltas is the last after_quantity and each adds up by itself |
| LedgerAudit.CleanNeedNotBeBalanced | quickhack_server/inventory/inventory-quantity-ledger-audit-service.ts:19-78 | A witness: zero violations and sums that do not match |
| LedgerAudit.FirstClassificationIsReported | quickhack_server/inventory/inventory-quantity-ledger-service.ts:581-602 | The first classification of a stocked device keeps the counts right and is always reported |
| LedgerAudit.CountRows | quickhack_server/inventory/inventory-quantity-ledger-audit-service.ts:98-118 | The loop's map holds the number of rows of every SKU and status, and its two counters the unclassified and the unknown ones |
| LedgerAudit.Audit | quickhack_server/inventory/inventory-quantity-ledger-audit-service.ts:84-168 | The whole audit computes the number of violations |
| PgReservations.BoundForever | quickhack_server/inspection/pg-issuance-service.ts:99-173 | A client record keeps its one valid PG number for ever, and no other record ever gets it |
| PgAnswers.ReserveAnswers | quickhack_server/inspection/pg-issuance-service.ts:99-173 | In every reachable state a new record gets the first free of twelve draws for a day or none, an old one its number again, given up when its day is over, and another kind is a conflict |
| PgAnswers.ReservationHoldsItsDay | quickhack_server/inspection/inspection-save-service.ts:547-596 | Unless it is given up, and whatever else goes on, at any time before its day is over the row of a new reservation can be saved under its number |
| PgAnswers.OverAfterItsDay | quickhack_server/inspection/inspection-save-service.ts:556-561 | When the day is over the save is refused, and the sweep or the next request abandons the reservation |
| PgAnswers.AbandonedForGood | quickhack_server/inspection/pg-issuance-service.ts:175-197 | An accepted abandonment is final in every continuation: the row is never saved and the number never given out again; it is refused only for a saved row |
| PgAnswers.ReservedSavedIff | quickhack_server/inspection/inspection-save-service.ts:547-577 | While a reservation is RESERVED its row is saved exactly under the reserved number, with row and inspection of the reserved kind, before the day is over |
| PgAnswers.UnreservedSavedIff | quickhack_server/inspection/inspection-save-service.ts:578-596 | Without a reservation of its own a save goes through exactly when the number is not reserved for a row, and a row finds a device |
| PgReservations.FinalStaysFinal | quickhack_server/inspection/pg-issuance-service.ts:175-309 | RESERVED is left only for CONSUMED or ABANDONED, and both stay, with the stored result |
| PgReservations.ReplayChangesNothing | quickhack_server/inspection/inspection-save-service.ts:547-596 | Saving a consumed row again returns the stored result and changes nothing |
| PgReservations.SavedExactlyOnce | quickhack_server/inspection/pg-issuance-service.ts:232-248 | A row's inspection is saved once when its reservation is consumed and never otherwise |
| PgReservations.NoDeviceUnderForeignReservation | quickhack_server/inspection/inspection-save-service.ts:547-596 | Under a number RESERVED for one row there is no device, and only that row's save, in time and of its kind, can make one |
| PgReservations.ReserveAgainIsReplay | quickhack_server/inspection/pg-issuance-service.ts:108-130 | Reserving again for the same record and kind answers with its one number |
| PgReservations.ValidIsGenerated | quickhack_server/inspection/pg-issuance-service.ts:53-58 | Every valid PG number can be drawn |
| PgService.Service.Reserve | quickhack_server/inspection/pg-issuance-service.ts:99-173 | The attempts loop takes the first free draw of twelve, or replays, or throws |
| PgService.Service.Abandon | quickhack_server/inspection/pg-issuance-service.ts:175-197 | The in-place abandonment is the abandon step |
| PgService.Service.ExpireReservations | quickhack_server/inspection/pg-issuance-service.ts:250-309 | The sweep abandons the longest overdue rows, all of them unless the limit is reached, touches nothing else, and is a run of single expiries |
| PgService.Service.SaveInspection | quickhack_server/inspection/inspection-save-service.ts:535-742 | The in-place save is the save step: reservation checks, replay, device, consumption |
| ModelSequence.NewNumberIsHighestIff | quickhack_server/inbound/model-sequence-service.ts:6-39 | On any tables, rows written from outside the code included, a new number exceeds every number of its model exactly when no number stored under a spelling with outer blanks is ahead of the sequence row and the plain spelling |
| ModelSequence.AssignKeepsCovered | quickhack_server/inbound/purchase-confirm-service.ts:282-322 | Assigning numbers keeps every such number covered by its sequence row, and sequence rows never go down |
| ModelSequence.HandNumberKeepsCovered | quickhack_server/inbound/model-sequence-service.ts:41-60 | A number entered by hand with its floor is covered too, under any spelling |
| ModelSequence.FloorIsRaised | quickhack_server/inbound/model-sequence-service.ts:41-60 | A floor is refused for a blank model and for zero; otherwise the row of the model says it, or what it said before if that was more |
| PurchaseItems.LastItemCounts | quickhack_server/inbound/purchase-confirm-service.ts:279 | Each device is confirmed once, and the items kept are exactly the last ones of their devices |
| PurchaseItems.ParseItems | quickhack_server/inbound/purchase-confirm-service.ts:211-280 | The loops read the rows, throw for the first bad field or an unpaired rate, and keep one item per device in order of first appearance |
| PurchaseAnswers.RowReads | quickhack_server/inbound/purchase-confirm-service.ts:211-266 | Of a row the target is checked first, then whether it asks for anything, then the rate |
| PurchaseAnswers.RequestReads | quickhack_server/inbound/purchase-confirm-service.ts:211-280 | A request reads as the error of its first bad row, a rate named by half, or the last item asked for each device, in the order in which the devices were first asked for |
| PurchaseAnswers.RequestAnswers | quickhack_server/inbound/purchase-confirm-service.ts:1001-1059 | A request for nothing is refused; otherwise it has one answer for each device in turn, or throws what the first item that throws does on its turn |
| PurchaseAnswers.AnswerMeans | quickhack_server/inbound/purchase-confirm-service.ts:773-904 | Each of the twelve answers tells which rows the item met and which it leaves: a stale revision and every other mismatch is a conflict that writes nothing, and CONFIRMED is answered on an inspected inbound at the expected revision alone, and leaves it purchased at the requested price with the evidence of its rate, in stock and numbered |
| PurchaseAnswers.OneMeaning | quickhack_server/inbound/purchase-confirm-service.ts:773-904 | No two answers go with the same rows, so the conditions are exact |
| PurchaseAnswers.StaleRateThrowsIff | quickhack_server/inbound/purchase-confirm-service.ts:356-443 | A request throws for a stale rate exactly when the item would be confirmed and its rate is gone, changed or does not fit |
| Purchase.SecondTimeIsQuiet | quickhack_server/inbound/purchase-confirm-service.ts:773-904 | An item that went through changes nothing when its device is met again, whatever rates and catalog say then, and its second answer is determined |
| Purchase.DoneIsSkipped | quickhack_server/inbound/purchase-confirm-service.ts:838-903 | A purchased, stocked and numbered device at the requested price is skipped when sellable and a conflict otherwise |
| Purchase.OneItemTouchesOneDevice | quickhack_server/inbound/purchase-confirm-service.ts:592-771 | Confirming an item leaves the device, inbound and inventory rows of every other device alone |
| PurchaseKeys.KeyNamesAll | quickhack_server/inbound/purchase-confirm-service.ts:448-502 | An operation key determines its inbound, its device and its action |
| PurchaseKeys.OneItemKeepsLedgerIff | quickhack_server/inbound/purchase-confirm-service.ts:448-502 | A confirmed item keeps a sound quantity ledger sound if and only if it creates no row or its creation key is new |
| PurchaseRuns.RerunChangesNothing | quickhack_server/inbound/purchase-confirm-service.ts:1001-1059 | A committed request sent again changes no device, inbound, inventory, ledger or sequence row and gives the determined second answers |
| PurchaseResults.RerunSkipsWhatWasHandled | quickhack_server/inbound/purchase-confirm-service.ts:773-904 | After any run of batches, inspections that open and revise inbounds and name devices, corrections of models and numbers, devices entered and deleted by hand and stock movements, a committed request sent again writes nothing, repeats every conflict and skips every confirmed or recovered item with its first price and number |
| PurchaseKept.RunKeeps | quickhack_server/inspection/inspection-save-service.ts:690-708 | In every such run a status change or creation recorded under a purchase key belongs to an inbound that was opened and, while it is its device's latest, is purchased and in stock; models stay plain, numbers differ, and the ledger is sound |
| PurchaseResults.LedgerStaysSound | quickhack_server/inbound/purchase-confirm-service.ts:448-502 | After every such run, and after any batch committed then, the quantity ledger is sound, with no condition on keys |
| PurchaseResults.NumbersAreNeverRefused | quickhack_server/inbound/purchase-confirm-service.ts:282-322 | After every such run no request fails for a model number: there is always one to give and the unique index never refuses it |
| PurchaseResults.NumbersRiseInEveryRun | quickhack_server/inbound/model-sequence-service.ts:6-39 | After every such run the new numbers a request gives within a model strictly increase, and each exceeds every number the model has, under whatever spelling |
| PurchaseResults.NumbersAreNeverGivenTwice | quickhack_server/inbound/model-sequence-service.ts:6-60 | Whatever happens in between, a number given to a device of a model exceeds every number an earlier request gave in that model, also to devices deleted, renamed or renumbered since |
| PurchaseResults.DevicesDiffer | quickhack_server/inspection/inspection-save-service.ts:156-164 | In every such run models are stored named and without outer blanks, and no two devices of one model share a number |
| PurchaseRuns.BatchKeepsLedgerIff | quickhack_server/inbound/purchase-confirm-service.ts:1036-1040 | All along a committed batch the quantity ledger stays sound if and only if every row the batch creates is created under a new key |
| PurchaseService.HighestNumber | quickhack_server/inbound/model-sequence-service.ts:16-23 | The aggregate over the devices is the highest number of that spelling, or zero |
| PurchaseService.Service.AllocateNextModelSequence | quickhack_server/inbound/model-sequence-service.ts:6-39 | The upsert gives the next number and remembers it |
| PurchaseService.Service.AssignModelSeqIfMissing | quickhack_server/inbound/purchase-confirm-service.ts:282-322 | The in-place assignment is the assignment step |
| PurchaseService.Service.ConfirmOnePurchase | quickhack_server/inbound/purchase-confirm-service.ts:773-904 | The in-place decision flow is the confirmation step |
| PurchaseService.Service.ConfirmInboundPurchases | quickhack_server/inbound/purchase-confirm-service.ts:1001-1059 | A batch commits the results of all items or, at the first that throws, leaves every table as it was |
| CommandResults.StaleClaimChangesNothing | quickhack_server/integration/command-service.ts:264-311 | Supporting fact: A claim whose generation was superseded can neither mark, finalize nor fail |
| ProjectionResults.OnlyNewestGenerationActs | quickhack_server/integration/projection-service.ts:167-192 | Supporting fact: Applying and marking failure change nothing unless the claim holds the newest generation of a PROCESSING job |
| CommandExecution.OutcomeNeedsEvidence | quickhack_server/integration/command-service.ts:660-734 | Supporting fact: SUCCEEDED is reported only from a classified answer and NOT_APPLIED only with a response in hand |
| CommandExecution.ClosingRecordsEvidence | quickhack_server/integration/command-service.ts:395-461 | Supporting fact: Every closing transaction records evidence and jobs exactly as the projection protocol's recording step does, and no other command step touches them |
| TotpRuns.AcceptedIsCurrent | quickhack_server/auth/totp-service.ts:152-161 | Supporting fact: An accepted code is that of a step at most one from now |
| PgReservations.GeneratedIsValid | quickhack_server/inspection/inspection-save-service.ts:502-504 | Supporting fact: Every drawn number is valid |

## Left out

- Locks, isolation levels and retries: every transaction is one atomic step. The replay branch of a reservation reads without a row lock (`quickhack_server/inspection/pg-issuance-service.ts:112`), so the reservation theorems speak of atomic transactions only.
- Network dispatch and adapters are arbitrary results or exceptions; ids, lease tokens, clocks and random draws are parameters.
- Encryption, hashing and HMAC: codes of a step are an arbitrary function, digests stand for what they digest, and recovery codes for their hashes.
- Trimming and pattern matching of request fields, except where a row above names it.
- The database trigger that queues integration commands when the sales channel write tables change; commands enter through registration.
- The bodies of projection handlers: an effect is one atomic change beside the operation key.
- Rows are found by their unique keys (operation key; command and attempt number; evidence and handler), so surrogate ids appear only where their order matters.
- Compression method 8 is an arbitrary inflate function; entry names are their UTF-8 bytes; the DOS time stamp is any two values. The reader ignores the stored checksum, and so does the model.
- The CRC and ZIP code computes on numbers below 2^32 with xor defined by recursion, not on machine words.
- JSON numbers that are not integers keep their text; the tree compares them as written.
- Text comparison of the device list is an arbitrary strict total order, and its filters an arbitrary selection; the cursor codec of `updatedAt` is truncation to whole seconds.
- AdminLog.LogPagesAreTheSnapshot: rows read by pages never change in the paging model; a job log row that is updated in place keeps its position but may come under or leave a filter on status or finish time between two pages.
- AdminLog.Download: likewise, a job log row updated during the export is shown as the page that reads it finds it.
- Page payloads, summaries, query fingerprints and cursor encoding beyond the position.
- Which texts are addresses: login keys are stated for any strings or any admitted ones; parsing of forwarded headers is not part of this model.
- Enrollment, session checks and administration of one-time codes beyond confirmation, verification and replacing recovery codes.
- Version columns, locations, timestamps and actors of the ledger and the inventory rows; manual corrections beyond the ledger operations they call.
- The inbound and inspection rows an inspection save writes: a save appends to a log of saves.
- An inspection's writes of device, inbound and SKU are separate steps of the purchase world, which only adds runs; keys drawn at random are taken as unused.
- Manual inventory creation does not consult reservations and is not part of the reservation model.
- A sweep or cleanup may order ties as it likes.
- Of the inbounds only the latest of a device takes part in a purchase; the claim and reload inside one atomic transaction always find the row again; criteria and date matching of price rates is an arbitrary predicate.
- The audit log, print spool, desktop shell, device bridge, workbook patching, statistics and user interface.
