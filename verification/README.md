# Mail backend: model and proofs

Running Tools keeps a mailbox cache for private e-mail aliases, signs in to Apple
with SRP, sends a compressed browser fingerprint, creates aliases over two
channels and from a durable queue, and keeps the sessions alive. This project
models the parts of its Go backend in which a small mistake loses mail, creates
an address twice or corrupts a session, and proves what those parts promise.

Verify it with `dafny verify dfyconfig.toml` (Dafny 4.11).

| files | what they model |
|---|---|
| `BitStrings`, `BitsAt`, `FingerprintTable`, `FingerprintPacking`, `FingerprintCodec`, `FingerprintText` | the fingerprint: escaping, dictionary, prefix code and six-bit packing, with a decoder as the independent reference |
| `CrcArithmetic`, `FingerprintChecksum` | the checksum against polynomial division |
| `ModularPowers`, `SrpArithmetic`, `BigEndian`, `SrpServer`, `SrpClient` | the SRP-6a client against an independent server of RFC 5054 |
| `MailMessages`, `MailMerge`, `MailBatches`, `MailMergeLoop`, `MailCache`, `MailMergeLaw` | merging fetched messages, the invariant of the cache, independence of batches, and what a merge leaves said without its steps |
| `MailFirstScan`, `MailCursor`, `MailFirstMerge`, `MailFetchLaw` | the bounded first scan, the incremental cursor and its runs, why the scan suffices, and what a fetch brings said without its steps |
| `MailKeys`, `MailboxSync`, `MailboxService`, `MailFollowing` | one sync (fast and full path), hiding, settings, revisions and wake-ups, and one mailbox over many syncs |
| `MailAnswers`, `MailTables`, `MailRepositories` | the JSON document and the SQL tables, and that they answer alike |
| `QueueSteps`, `QueueSafety`, `QueueOverlap`, `QueueConfirmation`, `AliasQueue` | the alias queue as a state machine over its locked sections, its invariant, a job queued beside an old run, reservations of unknown result, and the object itself |
| `CookieJar`, `AppleUpstream`, `AppleAccount`, `AppleCreate`, `AppleSession` | cookies in shared arrays, requests with retries, refresh, creation over two channels, and the health of the session |
| `KeepAlive` | when background refreshes are due |
| `ApplicationEvidence` | which aliases are known to be registered |
| `RedisLease` | the lease between instances |

The environment is arbitrary: answers of Apple are a function of how many
requests were sent, the mail server may hold any UIDs and fail at any step,
storage operations may fail, other calls come between locked sections, and the
process may crash between any two steps. Hashes, parsing and classification of
mails are arbitrary functions. Times are integers (nanoseconds for sessions,
seconds for mails); aliases are already trimmed and lower-cased.

Where the code differs from what one would expect, the code is kept and the
exact condition is stated, with an input at which it shows: the fast path equals
the full one only within the cache size, and the full one raises the revision for
every message with an empty list (`FastEqualsSlow`, `LoweredLimit`); the two
repositories part on saves without a generation and on state-only saves that
change one (`SaveAgrees`, `ImportParts`, `SaveStateAgrees`, `RotationParts`); a job
queued beside the run of a cancelled one breaks the invariant, and loses
conservation later exactly if that run is past its last check (`EnqueueExactly`,
`LateSuccessMiscounts`); pausing and resuming skips the question about an
uncertain reservation (`NoSilentRetryFromStart`, `PauseRetries`); a failing session is tried early by the full check only
(`RunIfDue`); and a lease is exclusive only while renewals are in time
(`StepKeeps`, `TwoWorkers`).

## Model

| member | source | states |
|---|---|---|
| FingerprintPacking.BitPacker.Push | modules/mail/backend/apple_fingerprint.go:49-60 | Appending a code of any width appends exactly its bits: the characters written so far, unpacked, followed by the pending bits of the buffer, are the bits pushed so far; fewer than six bits stay pending and nothing above the pending bits is set. |
| FingerprintPacking.BitPacker.Flush | modules/mail/backend/apple_fingerprint.go:71-74 | The last character carries the pending bits: the text unpacks to all bits pushed and fewer than six zero bits. |
| FingerprintPacking.UnpackInjective | modules/mail/backend/apple_fingerprint.go:81-81 | A packed text determines its bits and the bits determine the text, so the 64-character alphabet loses nothing. |
| FingerprintCodec.PrefixFree | modules/mail/backend/apple_fingerprint.go:83-93 | No code of the literal table is a prefix of another one. |
| FingerprintCodec.Complete | modules/mail/backend/apple_fingerprint.go:83-93 | The literal table is complete: any 16 bits begin with a code, so a reader is never stuck. |
| FingerprintCodec.Huffman | modules/mail/backend/apple_fingerprint.go:47-76 | Encoding succeeds exactly when every character has a code; the output unpacks to two header characters, the codes of the characters in order, the code of the end symbol 0, and zero padding. |
| FingerprintCodec.DecodeEncoded | modules/mail/backend/apple_fingerprint.go:47-76 | Reading prefix codes from the output up to the end symbol gives back the encoded text; the two header characters are the low three bits of its length times eight, and the next three times eight plus one. |
| FingerprintText.UrlEscape | modules/mail/backend/apple_fingerprint.go:125-146 | The loop computes the escaped form, for every character: plain, %XX, or %uXXXX. |
| FingerprintText.EscapeCharExactly | modules/mail/backend/apple_fingerprint.go:125-146 | Letters, digits and the seven signs stay as they are; any other character becomes a percent sign with two digits up to 0xFF, and one with the letter u and four digits above. |
| FingerprintText.EscapeRoundTrip | modules/mail/backend/apple_fingerprint.go:125-146 | Unescaping an escaped field gives its code points back exactly when all of them are at most 0xFFFF; larger ones are cut to 16 bits by the code. |
| FingerprintText.EscapeCuts | modules/mail/backend/apple_fingerprint.go:125-146 | The failing family is not empty: an emoji beyond 0xFFFF does not come back. |
| FingerprintText.BuildPayload | modules/mail/backend/apple_fingerprint.go:95-111 | The payload is the escaped fields joined by semicolons. |
| FingerprintText.PayloadSplits | modules/mail/backend/apple_fingerprint.go:95-111 | Splitting a payload at semicolons gives back each escaped field: escaping never produces the separator. |
| FingerprintText.ExpandReplaced | modules/mail/backend/apple_fingerprint.go:28-35 | One dictionary replacement over a text is undone by expansion, whatever replacements were made before. |
| FingerprintText.ReplaceAllReplaces | modules/mail/backend/apple_fingerprint.go:29-31 | A replacement turns exactly the occurrences of the token, taken from the left, into the character and leaves the rest; a text without the token stays as it is. |
| FingerprintText.ReplacedFree | modules/mail/backend/apple_fingerprint.go:29-31 | After a replacement the token occurs nowhere, and no other token occurs that did not occur before. |
| FingerprintText.Substitute | modules/mail/backend/apple_fingerprint.go:28-35 | All dictionary tokens are replaced one after the other in the order of the dictionary; none of them is left anywhere in the result, and it expands to the payload. |
| FingerprintText.CompressedFingerprint | modules/mail/backend/apple_fingerprint.go:26-45 | For every payload: the encoder succeeds; all but the last three characters decode to the payload with its tokens replaced in order and none left, which expands to exactly the payload; the last three characters are its checksum. |
| CrcArithmetic.ByteStepDivides | modules/mail/backend/apple_fingerprint.go:36-41 | The swap-xor-shift update equals eight steps of bit-serial division by x^16+x^12+x^5+1 (section 2 of ITU-T V.41), for every byte and every 16-bit register. |
| CrcArithmetic.RemainderOfDivision | modules/mail/backend/apple_fingerprint.go:36-41 | The bit-serial register is the remainder of a polynomial division over the two-element field: the message times x^16 equals a multiple of the generator plus the register. |
| FingerprintChecksum.ComputeChecksum | modules/mail/backend/apple_fingerprint.go:36-44 | The loop over a string of bytes computes, from 0xFFFF, the remainder of dividing its bits; the register stays within 16 bits. |
| FingerprintChecksum.ChecksumTextInjective | modules/mail/backend/apple_fingerprint.go:42-44 | The three trailing characters determine the 16-bit checksum. |
| FingerprintChecksum.ChecksumTextSpells | modules/mail/backend/apple_fingerprint.go:42-44 | They spell it in six-bit digits, the highest first. |
| SrpArithmetic.SecretsAgree | modules/mail/backend/apple_srp.go:131-138 | For any modulus above 1 and all a, b, x, u, k, the client value (B - k*g^x)^(a+u*x) mod N equals the server value (A*v^u)^b mod N of section 2.6 of RFC 5054, also when the difference is negative. |
| SrpArithmetic.Unmasked | modules/mail/backend/apple_srp.go:131-138 | Taking k times the verifier from the server value leaves the plain power g^b, modulo N. |
| BigEndian.Pad | modules/mail/backend/apple_srp.go:85-93 | PAD (section 2.1 of RFC 5054): a number is copied to the end of 256 zero bytes; a longer one is kept as it is. |
| BigEndian.PadDecodes | modules/mail/backend/apple_srp.go:85-93 | The padded form has 256 bytes exactly when the number fits, and always decodes to its number. |
| BigEndian.PadInjective | modules/mail/backend/apple_srp.go:85-93 | Equal padded forms come from equal numbers. |
| SrpClient.Client.constructor | modules/mail/backend/apple_srp.go:34-41 | A fresh client has the generator to the power of its secret as public value, and the multiplier of section 2.5.3 of RFC 5054: the hash of the modulus and of the generator at the length of the modulus. |
| SrpClient.Client.ProcessChallenge | modules/mail/backend/apple_srp.go:45-61 | Server values outside (0, N) and a zero scrambler are refused without touching the proofs; otherwise M1 and M2 are those that a server computes from its own secret with its own multiplier, scrambler and exponent (sections 2.5.3, 2.5.4 and 2.6 of RFC 5054, the exponent and the proofs in this service's variant). |
| SrpClient.Client.ComputeM1 | modules/mail/backend/apple_srp.go:140-154 | The proof with its byte-by-byte exclusive or equals the server's formula. |
| SrpServer.PadIsWide | modules/mail/backend/apple_srp.go:85-93 | The padded form of the client is the one of the server, which writes a number digit by digit in at least 256 bytes. |
| MailMessages.RetainedExactly | modules/mail/backend/mailbox.go:1086-1111 | Closed form: a message stays with exactly the aliases that fewer than 100 earlier messages carry, and stays at all exactly if one is left. |
| MailMergeLoop.RetainNewest | modules/mail/backend/mailbox.go:1086-1111 | The counting loop computes that selection. |
| MailMergeLoop.MergeMessages | modules/mail/backend/mailbox.go:1047-1084 | The map-based merge equals the list-based one for every iteration order of the map: last delivery of a UID, restricted to allowed aliases, newest first, at most 100 messages an alias, cut to the cache size. |
| MailMergeLaw.MergeIsMerge | modules/mail/backend/mailbox.go:1047-1111 | What a merge leaves, without its steps: of each UID the last delivery, on it exactly the aliases that are allowed and that fewer than a hundred newer deliveries carry; a delivery on which none stays is gone, and any other is there unless the cache is full of newer ones; newest first, one a UID. |
| MailMerge.ListedConcat | modules/mail/backend/mailbox.go:1053-1070 | A later delivery replaces an earlier one of its UID, and removes it when no allowed alias is left. |
| MailCache.RetainedCounts | modules/mail/backend/mailbox.go:1086-1111 | After a merge an alias is on exactly min(100, n) of the n messages that carried it. |
| MailCache.MergeValid | modules/mail/backend/mailbox.go:1047-1084 | Whatever is merged into whatever, the result is strictly descending by date and UID, has one message a UID, allowed and unrepeated aliases, at most 100 messages an alias, and no more than the cache size. |
| MailCache.MergeNothing | modules/mail/backend/mailbox.go:1047-1084 | Merging nothing into a valid cache cuts it to the cache size, so it changes nothing exactly when the cache is within the size. |
| MailBatches.KeptTwice | modules/mail/backend/mailbox.go:1086-1111 | Retaining in two stages keeps the same aliases on a message as retaining once. |
| MailBatches.BatchIndependent | modules/mail/backend/mailbox.go:1047-1084 | Merging a batch into the merge of what came before equals merging everything at once, also when the batch delivers messages again. |
| MailCache.RunIsOneMerge | modules/mail/backend/mailbox.go:1047-1084 | Over any series of batches the cache is one merge of all of them, as long as the cache size never cut anything off. |
| MailFirstScan.BatchRanges | modules/mail/backend/mailbox.go:924-938 | The ranges go down from the end in steps of at most 200 and partition [0, total). |
| MailFirstScan.AppendCandidates | modules/mail/backend/mailbox.go:974-1005 | One batch of headers continues the greedy selection exactly where the batches before it left off; the counts are min(100, headers seen with the alias). |
| MailFirstScan.CountsComplete | modules/mail/backend/mailbox.go:1007-1014 | Says whether every alias has its maximum. |
| MailFirstScan.SelectInitial | modules/mail/backend/mailbox.go:877-905 | The backwards scan in batches with its early exits selects exactly what one greedy pass over all UIDs in descending order selects. |
| MailFirstScan.SelectedExactly | modules/mail/backend/mailbox.go:974-1005 | A UID is selected exactly if some alias of it is on fewer than 100 higher UIDs: every alias gets its newest min(100, n) and nothing else is taken. |
| MailFetchLaw.ScanLaw | modules/mail/backend/mailbox.go:877-1014 | What the scan selects, without its steps: downwards exactly the UIDs that are among the highest hundred of some alias, of those the highest up to the maximum. |
| MailFirstScan.SelectionSuffices | modules/mail/backend/mailbox.go:974-1005 | Retaining among the selected messages only keeps what retaining among all of them keeps. |
| MailFirstMerge.FirstScanSuffices | modules/mail/backend/mailbox.go:877-922 | For a mailbox whose dates follow its UIDs and whose messages read as their headers say: merging the messages read for the selected UIDs gives the cache that merging all messages gives, with a cache size always and without one below the limit of the scan. |
| MailFirstMerge.FirstSyncSuffices | modules/mail/backend/mailbox.go:824-873 | So what the first sync of an empty cache fetches is merged to what every message within the lookback would be. |
| MailCursor.FetchInitial | modules/mail/backend/mailbox.go:877-922 | The bodies of the selected UIDs, 200 at a time, newest first; a failing batch returns nothing. |
| MailCursor.FetchImap | modules/mail/backend/mailbox.go:824-873 | A successful fetch returns the planned messages and the planned cursor; a failure at any step returns nothing. |
| MailFetchLaw.FetchLaw | modules/mail/backend/mailbox.go:824-922 | What a fetch brings, without its steps, newest first: after a cursor of the same mailbox every message up to the new cursor, which is the highest UID or the end of 200; otherwise what the scan of the recent messages selects, at most 5000 or the cache size, with the highest recent UID as cursor. |
| MailCursor.PlanComplete | modules/mail/backend/mailbox.go:824-873 | An incremental plan never moves the cursor back, ends on the old cursor or an existing UID, takes at most 200 messages, and contains every UID between the two cursors (UID n:* always returns the last message, section 6.4.8 of RFC 3501). |
| MailCursor.CursorSafe | modules/mail/backend/mailbox.go:824-873 | Over every run of deliveries, expunges, syncs and failed syncs the cursor never decreases and every existing UID it has passed was fetched (new UIDs are larger, section 2.3.1.1 of RFC 3501). |
| MailCursor.StepSafe | modules/mail/backend/mailbox.go:824-873 | One event keeps that, and only a completed sync moves the cursor. |
| MailCursor.BacklogEnds | modules/mail/backend/mailbox.go:864-873 | A backlog of k messages is empty after n syncs exactly when n is at least k/200 rounded up. |
| MailboxSync.FastEqualsSlow | modules/mail/backend/mailbox.go:751-800 | When nothing arrives and aliases and generation are unchanged, the state-only save leaves the same messages, hidden set, cursor, aliases and status as load, merge, prune and save exactly when the cache is within its size, and the same revision exactly when moreover no cached message has an empty list: those always count as changed, because the code compares with copies in which empty lists are absent. |
| MailboxSync.LoweredLimit | modules/mail/backend/mailbox.go:751-800 | A reachable cache above a lowered limit, on which the two paths really differ. |
| MailboxSync.SlowWithinSize | modules/mail/backend/mailbox.go:765-800 | The full path leaves any cache within the size. |
| MailMessages.CopiesEqual | modules/mail/backend/mailbox.go:1147-1156 | A copy of cached messages equals them exactly when no message has an empty list. |
| MailboxSync.SlowIsValid | modules/mail/backend/mailbox.go:765-800 | The full path reaches a valid cache from any cache. |
| MailboxSync.SlowIsFullSync | modules/mail/backend/mailbox.go:765-800 | What the full path leaves, said of the caches before and after alone: the merge of what was fetched into what was cached under the same generation, the hidden keys that still name a message, the state of the fetch, and one revision more exactly after a change of generation or of messages. |
| MailboxSync.NewGenerationStartsEmpty | modules/mail/backend/mailbox.go:773-777 | After a change of generation no hidden key is left and every message has the UID of a fetched one. |
| MailboxSync.SlowViewChange | modules/mail/backend/mailbox.go:765-800 | A full sync that changes the visible messages of any alias raises the revision by one. |
| MailboxSync.FastViewSame | modules/mail/backend/mailbox.go:753-763 | The fast path never changes what an alias shows. |
| MailboxService.MailboxService.PruneHidden | modules/mail/backend/mailbox.go:1113-1131 | The two loops compute the sorted, unrepeated hidden keys that still name a cached message. |
| MailboxService.MailboxService.PlanSync | modules/mail/backend/mailbox.go:684-725 | Where a fetch starts: at zero after a change of aliases; at the cursor if there is one; and for an old cache without one at its largest UID. |
| MailboxService.MailboxService.FinishSync | modules/mail/backend/mailbox.go:736-812 | A sync that succeeds writes only the state if nothing arrived for the same aliases and generation, and otherwise the full sync; one that fails leaves the cache or stores only the error. A view that changes for any alias raises the revision, a changed revision wakes readers, and a cache within its size stays within it. |
| MailboxService.MailboxService.FullSync | modules/mail/backend/mailbox.go:765-812 | The full path in place: when it succeeds, a full sync of the old cache, said without the steps of the code, and the old cache otherwise. |
| MailboxService.MailboxService.RunSync | modules/mail/backend/mailbox.go:667-812 | A whole sync with any hiding calls between its two locked halves: a success leaves the sync, said without the steps of the code, of the cache with keys hidden that those calls name and no others, for what is fetched from the cursor planned before them; a failure leaves it or stores the error. |
| MailboxService.MailboxService.Hide | modules/mail/backend/mailbox.go:527-571 | Hides a message from all of its aliases and from nothing else, or changes nothing; it succeeds whenever the caller names the cached generation, a cached message and one of its aliases. |
| MailboxService.MailboxService.HideBatch | modules/mail/backend/mailbox.go:574-642 | The same for up to 200 items, all or none of them, in whatever order the map yields them. |
| MailboxService.HiddenIsGone | modules/mail/backend/mailbox.go:552-560 | Hiding a message takes it out of the view of each of its aliases, and nothing else out of any view. |
| MailboxService.MailboxService.UpdateSettings | modules/mail/backend/mailbox_settings.go:63-105 | A new mail target starts an empty cache under the next revision and wakes readers; other settings leave the cache alone. |
| MailboxService.MailboxService.Clear | modules/mail/backend/mailbox.go:106-119 | Empties the cache and wakes readers; the revision starts again at zero. |
| MailboxService.MailboxService.Serve | modules/mail/backend/mailbox.go:527-812 | Over every run of syncs, hiding and settings changes: if any alias shows something else than at the start, the revision is higher and the event of the start was closed; a cache within its size stays within it until settings lower the limit. |
| MailFollowing.FollowMailbox | modules/mail/backend/mailbox.go:667-812 | Over every run of syncs of one mailbox, with hiding and failures in between, the stored cache goes through a chain of states: each sync either merges what the plan for the state before fetched into that state without what was hidden meanwhile, or leaves it or stores the error; a sync in which nothing fails merges. |
| MailFollowing.NeverSkips | modules/mail/backend/mailbox.go:667-812 | Along such a chain, in a mailbox where new messages get higher UIDs: the cursor never goes back, and every message that is present at a sync and passed by the cursor at its end was in the fetch plan of a sync up to then whose merge was stored. |
| MailboxService.MailboxService.CaptureRevision | modules/mail/backend/mailbox.go:644-653 | A reader gets the open event exactly when the stored revision is the one it knows. |
| MailboxService.NoLostWakeUp | modules/mail/backend/mailbox.go:644-665 | Over every run of steps, if the captured event is still open then the revision is the captured one. |
| MailboxService.MailboxService.LoadState | modules/mail/backend/mailbox.go:348-378 | The stored state; the copy in memory keeps its messages and takes the state over, and counts as loaded only while the generation is the stored one. |
| MailboxService.MailboxService.SaveState | modules/mail/backend/mailbox.go:391-403 | Writes the state without messages, and the copy in memory with it. |
| MailKeys.ParseOfKey | modules/mail/backend/mailbox_repository.go:694-710 | Parsing undoes key building for every non-empty alias, colons in the alias or generation included, and every 32-bit UID. |
| MailKeys.KeyInjective | modules/mail/backend/mailbox.go:1331-1333 | Within a generation two different pairs of alias and UID never share a key. |
| MailAnswers.JsonRepository.ListAliasMessages | modules/mail/backend/mailbox_repository.go:79-88 | The answer to an alias query, never more than 100 messages. |
| MailAnswers.JsonRepository.ListRecentMessages | modules/mail/backend/mailbox_repository.go:90-99 | The answer to a query for recent mail, never more than 500 messages. |
| MailAnswers.JsonRepository.Select | modules/mail/backend/mailbox_repository.go:590-632 | The loop that orders, filters and stops at the limit yields the first matches in newest-first order. |
| MailAnswers.AliasAnswerLaw | modules/mail/backend/mailbox_repository.go:79-88 | The answer is the newest messages that carry the alias and whose key for it is not hidden: 10 by default, at most 100; none for another generation. |
| MailAnswers.RecentAnswerLaw | modules/mail/backend/mailbox_repository.go:90-99 | The answer is the newest messages since the cutoff that some alias still shows: 200 by default, at most 500; none for another generation. |
| MailAnswers.JsonRepository.GetMessage | modules/mail/backend/mailbox_repository.go:101-111 | The visible message with the UID and alias if there is one, and none otherwise. |
| MailAnswers.ReachableIsStorable | modules/mail/backend/mailbox.go:765-800 | Every cache that the mailbox service reaches meets what both repositories need. |
| MailTables.SqlRepository.Save | modules/mail/backend/mailbox_repository.go:177-270 | One transaction with upserts in batches of 500, pruning and replacement of hidden rows: it writes exactly the saved tables or nothing; if no statement fails, it succeeds exactly when no batch writes one row twice. |
| MailTables.SqlRepository.SaveHidden | modules/mail/backend/mailbox_repository.go:239-264 | Hidden rows flushed 500 at a time are exactly the parsed keys. |
| MailTables.SqlRepository.Query | modules/mail/backend/mailbox_repository.go:309-334 | The matching rows of the account and generation, each once, ordered by date and UID descending. |
| MailTables.SqlRepository.Clear | modules/mail/backend/mailbox_repository.go:474-490 | Removes all rows of the account, or none. |
| MailRepositories.SaveAgrees | modules/mail/backend/mailbox_repository.go:177-270 | After a save, tables and document hold the same exactly when messages or hidden keys are never saved without a generation: the document keeps those, while the tables file messages under an import generation and drop the keys. |
| MailRepositories.ImportParts | modules/mail/backend/mailbox_repository.go:177-181 | A cache without a generation but with a message, after whose save the two sides differ. |
| MailRepositories.SaveStateAgrees | modules/mail/backend/mailbox_repository.go:272-289 | A state-only save keeps tables and document alike exactly when it keeps the generation or nothing is filed under the old one. |
| MailRepositories.RotationParts | modules/mail/backend/mailbox_repository.go:272-289 | A state-only save of another generation, after which the document still shows the message and the tables do not. |
| MailRepositories.RunAgrees | modules/mail/backend/mailbox_repository.go:64-115 | Over every run of saves, state-only saves and clears that the service makes, the tables of the account hold exactly its document. |
| MailRepositories.RunAllAgrees | modules/mail/backend/mailbox_repository.go:64-115 | The same for every account under any interleaving of the calls of all accounts. |
| MailRepositories.OthersUntouched | modules/mail/backend/mailbox_repository.go:177-289 | No save, state-only save or clear changes a row of another account. |
| MailRepositories.AliasAnswersAgree | modules/mail/backend/mailbox_repository.go:303-327 | An alias query on the tables returns what the document returns, in the same order. |
| MailRepositories.AnswersAgreeAfterRun | modules/mail/backend/mailbox_repository.go:64-115 | From empty repositories, after any calls of any accounts in any order, the alias query of the tables gives the answer of the account's document. |
| MailRepositories.RecentAnswersAgree | modules/mail/backend/mailbox_repository.go:329-345 | So does a query for recent messages. |
| MailRepositories.MessageAnswersAgree | modules/mail/backend/mailbox_repository.go:347-367 | For a UID and alias the document gives one answer, and the tables give the same. |
| MailRepositories.LoadsAgree | modules/mail/backend/mailbox_repository.go:145-175 | A full load reads back the same state, copies of the same messages in the same order, and the same hidden keys; the messages are equal exactly when none has an empty list, which the tables read back as absent. |
| MailRepositories.DualRepository.Save | modules/mail/backend/mailbox_repository.go:505-513 | Writing the document first and then the tables: a success leaves both alike even if an earlier failure had let them differ. |
| QueueSafety.NeverTooMany | modules/mail/backend/alias_queue.go:338-457 | Over every run with crashes, pauses, cancels and resumes: the held addresses are the counted ones and at most the stored candidate, current equals success, and the addresses that a request holds or may still take never outnumber what was requested. |
| QueueSafety.CompletedIsExact | modules/mail/backend/alias_queue.go:432-445 | A completed job holds exactly as many addresses as were requested and has counted each of them. |
| QueueSafety.RunSafe | modules/mail/backend/alias_queue.go:95-514 | Every allowed run keeps the conservation invariant together with what the worker and a pending resume have read, and a live run whose job is paused or cancelled has been told to stop. |
| QueueSafety.CrashSafe | modules/mail/backend/alias_queue.go:95-121 | A crash between any two steps keeps it. |
| QueueSafety.SettleSafe | modules/mail/backend/alias_queue.go:259-287 | Settling an interrupted reservation by the alias list counts it exactly when it is held. |
| QueueSafety.HandleErrorSafe | modules/mail/backend/alias_queue.go:459-514 | No error answer loses a held address, including an invalid candidate that is dropped. |
| QueueSafety.ToldRunStops | modules/mail/backend/alias_queue.go:376-388 | A run that was told to stop ends at the head of its loop; its job is then cancelled if the user cancelled it, and paused otherwise. |
| QueueConfirmation.NoSilentRetryFromStart | modules/mail/backend/alias_queue.go:95-121 | From an empty queue: after a reservation failed in the network or the process crashed during one, no run starts, so no reservation is sent, through any events, restarts included, until the alias list has the candidate, the user confirms that it was not created, pauses the job or queues another. |
| QueueConfirmation.BecomesUncertain | modules/mail/backend/alias_queue.go:459-491 | A network failure of a started reservation leaves it uncertain unless a resume is under way, and so does a crash during one unless the job was paused. |
| QueueConfirmation.PauseRetries | modules/mail/backend/alias_queue.go:249-311 | Pausing and then resuming a job that needs attention skips the question: its candidate is reserved again although nobody said what became of it. |
| QueueOverlap.EnqueueExactly | modules/mail/backend/alias_queue.go:209-248 | Storing a new job, in every safe state: conservation holds right after; the invariant holds exactly when no run is alive; and some allowed continuation loses conservation exactly when a run is alive that has a candidate to reserve, is reserving one or has reserved one, or that is about to get a candidate which it would not number as the first. |
| QueueOverlap.NeverLoses | modules/mail/backend/alias_queue.go:361-457 | The other live runs are harmless: whatever happens after the new job is stored, conservation holds, because they see that they are to stop, fail, or store their candidate in the new job as its own first one. |
| QueueOverlap.EndangeredLoses | modules/mail/backend/alias_queue.go:361-457 | From each of the dangerous runs some allowed events lead to a job that breaks conservation: it counts an address that it does not hold, numbers its first one wrongly, or starts to reserve one that it has not stored. |
| QueueOverlap.LateSuccessHappens | modules/mail/backend/alias_queue.go:313-336 | A run of allowed events from an empty queue that ends with a cancelled job and a live run whose reservation succeeded. |
| QueueOverlap.LateSuccessMiscounts | modules/mail/backend/alias_queue.go:432-445 | If a job is queued in that state, the old success is counted in it: it claims an address that it does not hold. |
| AliasQueue.AliasQueue.Start | modules/mail/backend/alias_queue.go:95-121 | Recovery after a crash: a job left running needs attention if a reservation of its candidate was started, and is queued at once otherwise; any other job stays as it is. |
| AliasQueue.AliasQueue.Enqueue | modules/mail/backend/alias_queue.go:209-248 | Accepted exactly for a label of 1 to 158 characters and a count of 1 to 99, and for a repeated request exactly with the same parameters, otherwise exactly without an active job; each refusal has its code and changes nothing; a new job is queued at once. |
| AliasQueue.AliasQueue.Control | modules/mail/backend/alias_queue.go:313-336 | Pausing and cancelling: refused for finished jobs; otherwise the status is the target, the candidate stays, and a run that can be told to stop is told. |
| AliasQueue.AliasQueue.AnswerList | modules/mail/backend/alias_queue.go:264-277 | Resume goes on exactly if the alias list has the candidate or the user confirms that it was not created. |
| AliasQueue.AliasQueue.RunIfDue | modules/mail/backend/alias_queue.go:338-359 | Starts a run exactly for a due job, which then still lacks an address. |
| AliasQueue.AliasQueue.BeginReserve | modules/mail/backend/alias_queue.go:412-421 | Sends exactly if the job is neither paused nor cancelled, and then the address to be reserved is stored as the reserving candidate. |
| AliasQueue.AliasQueue.CountReserved | modules/mail/backend/alias_queue.go:432-446 | One more address is counted, the counters equal the number of counted addresses, and the job is completed exactly with its last one. |
| AliasQueue.AliasQueue.HandleCreateError | modules/mail/backend/alias_queue.go:459-491 | Each kind of failure ends the run with its status, code and next attempt; a network failure of a started reservation asks for confirmation and plans none; nothing is counted, and only an invalid candidate is dropped. |
| AppleUpstream.Upstream.Do | modules/mail/backend/apple_protocol.go:45-90 | At most three attempts, one unless the request may be retried; every repetition follows a transient failure or a server error of a call that was not given up. |
| AppleAccount.AccountRequest | modules/mail/backend/apple_protocol.go:604-672 | Sends one kind of request; a failure leaves the caller's session untouched down to its cookie array; a success moves it to a new array that holds exactly the merge of the response's cookies; only a confirmation can report that it may have created something. |
| AppleAccount.Receive | modules/mail/backend/apple_protocol.go:652-658 | The cookies and headers of a response are taken into the working copy in place. |
| AppleAccount.Refusal | modules/mail/backend/apple_protocol.go:659-672 | What an answered request fails with: a quota answer before an expired session before any other failure, and an unreadable body of an accepted answer. |
| AppleCreate.CreateWithState | modules/mail/backend/apple_protocol.go:875-941 | Exactly one confirmation is sent if an alias is returned or the error says so, and none otherwise. The alias has the address and identifier of the accepted answer to the confirmation of the candidate just generated; the candidate stands in for an address left out, and an answer to the look-up takes precedence. |
| AppleCreate.CreateWithAccount | modules/mail/backend/apple_protocol.go:842-873 | The same over the refresh and the second attempt after an expired session, with Apple Account requests only; a failure degrades the session exactly if it is neither a quota answer nor a reason for a new login. |
| AppleSession.SessionManager.CreateOnWeb | modules/mail/backend/client.go:97-129 | The web channel asks for a candidate and reserves exactly that one; the alias has the address and identifier of the accepted reservation. |
| AppleSession.SessionManager.CreateAlias | modules/mail/backend/session.go:404-462 | For every script of answers one call sends at most one confirmation over retries, re-authentication and channel fallback, and exactly one if it returns an alias. The Apple Account channel is asked first, exactly if it does not cool and its session is usable and of the same account; the web channel after it, exactly if it does not cool, there is a web login and no confirmation was sent. The alias is the one that the answers of the channel describe. |
| CookieJar.MergedExactly | modules/mail/backend/apple_types.go:273-306 | After a merge the jar has one cookie a name, path and domain (ignoring case and one leading dot): the last word of the response on it, or else the old cookie. |
| CookieJar.SameKey | modules/mail/backend/apple_types.go:286-289 | Cookies are the same if name and path are equal and the domains are apart from case and one leading dot. |
| CookieJar.ReceivedCookie | modules/mail/backend/apple_types.go:273-284 | A received cookie without a domain gets the host, and one without a path the root. |
| CookieJar.MergeCookies | modules/mail/backend/apple_types.go:273-306 | The in-place loop with its shifting deletion, overwriting and append computes that jar, in the same array or a new one. |
| CookieJar.RemoveAt | modules/mail/backend/apple_types.go:292-294 | Deletion moves the later cookies down by one in the shared array. |
| CookieJar.Clone | modules/mail/backend/apple_protocol.go:26-33 | A clone has equal cookies in an array of its own. |
| AppleAccount.Refresh | modules/mail/backend/apple_protocol.go:265-356 | For every script of answers: a refresh succeeds exactly when its check of record is accepted, and sends the requests of a refresh only; a failure leaves the caller's state and the contents of its cookie array as they were; a success leaves a checked, healthy session with a key and a lifetime ahead. |
| AppleAccount.RefreshTokenWithoutScnt | modules/mail/backend/apple_protocol.go:358-370 | The shallow copy that shares the cookie array does not leak changes into the state on failure. |
| AppleSession.SessionManager.Run | modules/mail/backend/session.go:404-858 | Over every run of calls, in terms of the requests that were sent: a session that needs a login gets no Apple Account request and stays so until a login stores a session; a degraded or otherwise blocked session stays blocked, through any failing checks, keep-alives and web logins, until a check of record is accepted or a login stores a session; until then user calls send web requests only, the Apple Account channel gets requests of refreshes only, and none at all without a check or keep-alive; a healthy session has passed its last check. |
| AppleSession.SessionManager.Perform | modules/mail/backend/session.go:404-858 | What each single call sends for a session that needs a login or is blocked, and that only an accepted check of record or a login that stores a session lifts the block. |
| AppleSession.SessionManager.CheckAccount | modules/mail/backend/session.go:810-858 | When a refresh is tried, exactly; it succeeds exactly when the check of record is accepted; a failure stores the session with only its health and times changed and leaves it blocked, degraded or needing a login according to the error; a success leaves a checked session. |
| AppleSession.SessionManager.CheckAll | modules/mail/backend/session.go:249-298 | The full check: the web session first, then the Apple Account session exactly if it is to be tried; with a valid web session nothing else is asked, and with an invalid one beside a blocked Apple Account session the alias list is asked for on the web channel last. |
| AppleSession.SessionManager.PersistLogin | modules/mail/backend/session.go:342-386 | A web login of another account ends the stored session, any other leaves it; an Apple Account login replaces it exactly if it fits the web login. |
| AppleSession.SessionManager.ListAliases | modules/mail/backend/session.go:469-500 | A blocked session is neither used nor changed; the list then comes from the web channel. |
| AppleCreate.EnsureReady | modules/mail/backend/apple_protocol.go:453-467 | A session that needs a login or is degraded fails without a request. |
| AppleCreate.Operate | modules/mail/backend/apple_protocol.go:384-451 | Listing, updating, (de)activating and deleting: besides the requests of a refresh exactly the one of the operation is sent, once, or up to three times for a list; it succeeds exactly if the answer is understood, which marks the session healthy; a failure notes the attempt, degrades the session exactly if it is neither a quota answer nor a reason for a new login, and requires a login for the latter. |
| AppleCreate.OperationRequests | modules/mail/backend/apple_protocol.go:406-451 | The method and the path of each operation. |
| KeepAlive.RefreshLead | modules/mail/backend/apple_types.go:110-129 | The refresh lead always lies between 30 and 120 seconds, and is a third of the lifetime in between. |
| KeepAlive.FailingExactly | modules/mail/backend/session.go:221-241 | A session that was just checked is not failing, and one that has noted an attempt after its last check is. |
| KeepAlive.AutoRefresh.DueAt | modules/mail/backend/autorefresh.go:318-337 | For every jitter and stored target: after a failed attempt the next one is due 153 to 207 seconds later; after a success no later than 207 seconds and no later than the refresh deadline. |
| KeepAlive.AutoRefresh.RunIfDue | modules/mail/backend/autorefresh.go:294-316 | A failing session gets Apple Account requests exactly when the full check is due or the keep-alive is, which is 153 to 207 seconds after the failed attempt: sooner only by the full check. An idle pass changes nothing; one that asks something leaves a session that needs a login or has noted a time of this pass, and if it does not succeed with a blocked session, one that needs a login or is degraded. |
| KeepAlive.AutoRefresh.Work | modules/mail/backend/autorefresh.go:206-240 | Every run of the worker is a chain of such passes from the situation that it finds, requests included, to the one that it leaves; full checks in turn are an interval apart, and a keep-alive after a failed attempt comes 153 seconds after it at the earliest. |
| KeepAlive.NextAttempt | modules/mail/backend/autorefresh.go:294-337 | Along every such chain: if a pass asked something of the Apple Account channel and left the session failing, the next pass that asks something, if it is a keep-alive, begins at least 153 seconds after the time that the session noted, which is a time of the first pass. |
| KeepAlive.NextCheck | modules/mail/backend/autorefresh.go:294-308 | Full checks in turn are at least the configured interval apart. |
| KeepAlive.AutoRefresh.RunCheck | modules/mail/backend/autorefresh.go:129-183 | The full check in the background; the worker stays enabled exactly unless the web session expired and no Apple Account session is left to keep alive. |
| KeepAlive.AutoRefresh.NextWakeDelay | modules/mail/backend/autorefresh.go:242-269 | The worker sleeps between 0.1 and 30 seconds and never past the next web check, the keep-alive of a failing session at most 207 seconds after its attempt, or the refresh deadline of any other. |
| ApplicationEvidence.BatchOutcome | modules/mail/backend/alias_applications.go:148-173 | From an empty store a batch leaves an alias confirmed exactly when it has a definitive message for it or a login after a registration by date and UID, and observed exactly when it has only a registration. |
| ApplicationEvidence.BatchRetry | modules/mail/backend/alias_applications.go:148-173 | Seeing the batch again changes nothing, and repeating it after a pass that broke off anywhere ends where an unbroken pass does. |
| ApplicationEvidence.NeverBack | modules/mail/backend/alias_applications.go:129-146 | In any order of evidence a confirmation is final, rows never disappear, and the detection time never rises. |
| ApplicationEvidence.OrderedOutcome | modules/mail/backend/alias_applications.go:122-146 | What ordered evidence of one alias leaves: observed with the first registration as its detection, or confirmed by the first evidence that confirms, with the first registration before it. |
| ApplicationEvidence.RowIsOwn | modules/mail/backend/alias_applications.go:175-254 | Evidence for one alias never changes the row of another. |
| ApplicationEvidence.ApplicationStore.ObserveEvidence | modules/mail/backend/alias_applications.go:175-254 | Creating and updating a row follows the status machine. |
| ApplicationEvidence.ApplicationStore.ObserveMessages | modules/mail/backend/alias_applications.go:148-173 | The loop sees the evidence of a batch oldest first; a failing write leaves exactly the part before it. |
| RedisLease.OthersUntouched | internal/platform/persistence/service.go:107-134 | A renewal or release never extends, shortens or removes another client's entry. |
| RedisLease.StepKeeps | internal/platform/persistence/service.go:92-134 | After a step every working client still owns the entry exactly when no working client's time ran out in it. |
| RedisLease.OneWorker | internal/platform/persistence/service.go:92-134 | In every interleaving in which each renewal lands in time, at most one client is between acquire and release. |
| RedisLease.TwoWorkers | internal/platform/persistence/service.go:92-134 | If a worker's time runs out, the next client to ask works beside it. |
| RedisLease.ReleaseFrees | internal/platform/persistence/service.go:125-133 | A release that arrives frees the key for the next client at once; a lost one does when the time to live has passed. |
| RedisLease.Lease.AcquireLock | internal/platform/persistence/service.go:92-106 | The lock is acquired exactly when the key is free. |
| RedisLease.Lease.RenewLoop | internal/platform/persistence/service.go:106-122 | The renewals keep the entry exactly when each lands before the entry left by the one before it expires. |
| RedisLease.Lease.ReleaseLock | internal/platform/persistence/service.go:125-133 | Release deletes the key if it is still the caller's and the request arrives, leaves any other entry, and does nothing the second time. |

## Left out

- HTTP handlers, proxies, TLS, the IMAP and Redis wire protocols, SQL and JSON encoding, MIME and HTML parsing: they are steps of the environment or abstract functions.
- Authentication of the application's own users, share links, the activity log, system updates, the account list, the frontend and generated database code: mostly single-branch or filter claims.
- SHA-256, PBKDF2 and randomness: the SRP proofs hold for any hash with 32 bytes, any secret, and any group with a modulus above 1 that fits 256 bytes; the literal RFC 5054 group is not repeated, and secrecy is not claimed.
- The list of fingerprint fields and the locale time format: any list of fields is covered.
- Sender, subject and text of a message are one opaque field, so the shortened previews of list queries are not modelled.
- The retained maximum is the constant 100 that the code passes; an absent alias list is stored as absent and therefore never equal to an empty one, so a sync without aliases always takes the full path.
- MailboxService.MailboxService.Serve: a changed view raises the revision; the converse does not hold in the code, as `FastEqualsSlow` shows.
- Batch independence is claimed while the cache size cuts nothing off; it does not hold after a cut.
- MailboxService.MailboxService.RunSync: does not model the notification of application evidence after a save, whose failures are only logged; ApplicationEvidence covers it separately.
- MailboxService.MailboxService.CaptureRevision: does not model the timer that ends a wait.
- MailRepositories.RunAgrees: compares caches, not the existence flag, which differs after a clear (the document stays, the row goes) and which the service ignores.
- AliasQueue: the control flow of the worker's run between its locked sections is the Run datatype of QueueSteps rather than one loop; overlapping resumes, two live workers and failing local writes are excluded; cancelled is not claimed to be final, because a late error or success of the run may still change the status.
- QueueSafety.NeverTooMany: assumes that an invalid-candidate answer and a user's confirmation are given only for an address that is not held and will not be, that the alias list is true, and that generated addresses are new, also among those asked for by earlier jobs.
- AppleSession.SessionManager.CreateAlias: channel cooldowns are parameters of the call; cooldown bookkeeping and timestamps of aliases are left out.
- CookieJar.MergedExactly: letter case is folded for ASCII letters, as host names have no others; the secure and HTTP-only flags ride along with a cookie and are left out.
- CookieJar: which cookies a request carries (host, path and expiry).
- AppleSession.SessionManager.Run: logins hand over a session as a completed refresh leaves it; the login dialogue itself is left out, and so is the mutual exclusion of scheduler and queue.
- KeepAlive.AutoRefresh.RunCheck: does not model the recorded times and messages of past checks, which only inform the user.
- ApplicationEvidence.BatchOutcome: for dates in (0, 1e12], as the code treats other dates as the present or as milliseconds, which may reorder messages against the sort.
- RedisLease: the fallback to a local lock when Redis is unreachable.
