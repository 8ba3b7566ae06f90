# Verified model of the router console

The console connects to one OpenWrt router, shows it on a live dashboard, changes its
configuration and answers questions about it. This project models the parts of it in which
state, text formats or arithmetic carry hard guarantees, and proves those guarantees for all
inputs, all runs and all interleavings. `dafny verify dfyconfig.toml` checks everything.

| file | what it models | what is proved |
|---|---|---|
| `SnapshotFeed.dfy` | the live feed: polling task, worker threads that outlive a cancelled task, one-slot queues | safety of every interleaving; which snapshot is retained; exactly when the feed shows a router as connected; exactly when a change of connection is clean |
| `Vault.dfy` | key file with an exclusive-create race, credentials encrypted in place | all booting processes agree on one key; every stored credential stays readable over any run |
| `VaultFields.dfy` | single stored fields after the key file was lost | which of them read again under a newly written key |
| `HexDump.dfy` | backup download: `hexdump -C` output decoded | the decoder inverts the dump exactly when no row repeats |
| `Restore.dfy` | chunked upload and the restore command | chunk boundaries, what is on the router after every chunk, when the command is sent |
| `RestoreJobs.dfy` | staged restore jobs | what a job dispatches, upload by upload; for any calls exactly how often it can, and when at most once |
| `RestoreDesk.dfy` | several jobs on one router | jobs do not interfere, and their maxima add up |
| `RestoreOverlap.dfy` | two overlapping uploads to the one remote file | exactly which data they can spoil without the size check noticing |
| `ShellQuote.dfy` | shell quoting | round trip through a tokenizer, and no influence outside the quoted word |
| `OpkgStanzas.dfy` | the package status parser | blank lines separate on any input; parsing inverts printing |
| `EventStream.dfy` | the incremental Server-Sent Events reader | independence of network cuts; end-to-end delivery |
| `ClientMerge.dfy` | the client list merged from four sources | refinement of a last-writer specification; where the address fallback fails |
| `ClientFields.dfy` | the same list, property by property | which entry of the snapshot decides each property of each client |
| `Ipv4.dfy` | dotted quads, bit masks, netmasks | mask test is integer division; netmask and address round trips |
| `ContextCache.dfy` | the cache of tool results | agreement with a log of stores and clears |
| `SnapshotBuild.dfy` | the snapshot built from cached and freshly run tools | every section of every run is fresh or just run; the snapshot is the one without a cache |
| `Sessions.dfy` | the lazily swept session registry | sweeping is invisible to `resolve`, and exactly how `revoke` shows it |
| `Recommendations.dfy` | findings merged into recommendations | conservation, priorities, stable order |
| `Prelude.dfy`, `Text.dfy` | options, results, list and text primitives | line splitting inverts assembling lines with any breaks |

Code that updates fields is a class or a method with a loop, proved equal to a function of the
old state. The theorems are about those functions and about runs of them.

Assumptions, stated once:

- One call of `_frame`, of `_publish`, of `_broadcast_disconnected`, of `configure_connection`, `clear_connection`,
  `start` and of each half of `stop` (before and after its await), and a worker's read of source and
  connection are each atomic, also against worker threads. Between a client's `subscribe` and
  `latest` workers may go on, and so they may between the framing of a failed collection and its
  publishing, which are two steps. The model lets any other event fall between these two as well, which is
  more than the event loop does; what is proved holds for all of it.
- One vault migration and one `save` are each atomic.
- The cipher obeys one law: decrypting with the key that encrypted gives the plaintext back.
- A command whose answer arrives and reports success did succeed. The shell wrapper cannot vouch for
  this: it echoes `$?` after another `echo` (`backend/app/services/router_management.py:375`),
  so the status it reports is not the command's own.
- When an answer is lost the transport runs the command again, three attempts in all
  (`router-agent/src/router_agent/transport/ssh/client.py:70-85`). A lost attempt has had some of its
  effect or none: of a chunk a prefix was written, a restore was started or not. What it does,
  it has done before the next attempt.
- Clock readings never decrease where a theorem says so (`Timely`).

What the proofs show the code does not do:

- `hexdump -C` is called without `-v`, so a row equal to the one before it is printed as `*` and lost
  by the decoder. The downloaded archive is complete exactly when no row repeats; otherwise it is
  shorter than the byte count that the same command prints, which the code does not compare.
- `configure_connection` and `clear_connection` do not wait for a worker. The feed serves only data of
  the new connection exactly when no collecting worker is out at the moment of the call.
- A crash between creating and writing the key file leaves a blank file that no later boot
  without AUTH_VAULT_KEY ever replaces: every one of them refuses to start.
- A legacy plaintext credential that begins with the ciphertext marker is taken for ciphertext.
- The address indexes of the client list hold the owner's key, not its address, so a client that has no
  address of its own can show another client's MAC key as its address, as a lease without a MAC does
  for its IPv6 address.
- `SessionStore.revoke` returns whether a sweep has removed the expired session already.
- One confirmation may restore up to three times, because the transport sends the restore command again
  when its answer is lost. A chunk may be appended again in the same way, but the size check never lets
  such a file be restored.
- `pending_confirmation` is never taken back, so a job may be confirmed again and staged again, and then
  restores more than once. The route makes a job for every upload
  (`backend/app/api/v1/management.py:571-580`), which leaves, with confirmations one at a time, two ways: a lost
  answer as above, and a connection that fails to close after the command was sent, whereupon the upload
  stays staged and a second confirmation sends it again.
- Confirmations run in threads of their own (`backend/app/api/v1/management.py:613`). When two of the same upload
  overlap, their chunks can be mixed in the one remote file so that it has the right size and the wrong
  contents: exactly when two neighbouring chunks after the first give other bytes in the other order.
- Once the key file is lost and another key is written, a field that was ciphertext reads again only when its
  row is saved anew.
- A dashboard client that reads the latest frame while one waits to be published gets a number twice or out
  of order, because it is first sent the latest frame.

## Model

| member | source | states |
|---|---|---|
| SnapshotFeed.FeedIsSafe | backend/app/services/snapshot_service.py:93-300 | In every interleaving of starts, stops, subscriptions, connection changes, polls, worker reads and returns, broadcasts and consumption, each consumer takes strictly increasing sequence numbers, its queue holds at most one frame and that one is newer, connected frames carry a snapshot, and the latest frame bears the counter |
| SnapshotFeed.StepKeepsInvariant | backend/app/services/snapshot_service.py:176-186 | Every single atomic event, including a late worker and a stop with a frame about to be published, keeps the invariant behind that safety |
| SnapshotFeed.StopKeepsInvariant | backend/app/services/snapshot_service.py:99-107 | The farewells of `stop` keep the invariant although a pending frame may be older: the subscriber set is empty afterwards |
| SnapshotFeed.BroadcastReachesEveryQueue | backend/app/services/snapshot_service.py:289-300 | Right after a publish or a disconnect broadcast every subscribed queue holds exactly that frame and no other queue changes |
| SnapshotFeed.GoodbyesNumberTheQueues | backend/app/services/snapshot_service.py:105-107 | `stop` gives the k-th queue of its order the k-th new number in a disconnected frame, one frame each, and leaves other queues alone |
| SnapshotFeed.LatestKeepsLastInstalled | backend/app/services/snapshot_service.py:263-287 | In every run the retained snapshot is that of the last successful collection framed since the last configure or clear, none if there was none; failures and stops never lose it |
| SnapshotFeed.SuccessIsShownConnected | backend/app/services/snapshot_service.py:188-261 | A collection that succeeds is framed as connected and without error, with the next number, the source and device its worker had read and the snapshot collected; the task that awaits it goes on to publish this very frame |
| SnapshotFeed.FailureIsShownDisconnected | backend/app/services/snapshot_service.py:181-190 | A poll without a router and a failed one give a disconnected frame with its reason, which keeps source, device and snapshot of before; a failure that nobody awaits changes nothing |
| SnapshotFeed.ClearIsShownDisconnected | backend/app/services/snapshot_service.py:144-172 | Clearing shows a disconnected frame without snapshot, under no source and the service's own device name, with the given reason |
| SnapshotFeed.LatestIsConnectedIffLastFramingInstalled | backend/app/services/snapshot_service.py:176-287 | In every run the latest frame is connected if and only if the last event that framed anything was a successful collection and no reset came since, and then it is the frame of that event |
| SnapshotFeed.ConnectedFramesWereCollected | backend/app/services/snapshot_service.py:176-300 | Every frame that is shown, pending, queued or taken in any run: a connected one is the very frame of a successful collection of that run and has no error, and every other says what is wrong |
| SnapshotFeed.CollectionNamesTheRouterRead | backend/app/services/snapshot_service.py:202-261 | Whatever happens while a worker is out, its collection is shown under the source and name of the router configured when it read them: the connection's name, else its host, else the service's |
| SnapshotFeed.ConfigureIsInForce | backend/app/services/snapshot_service.py:136-142 | After configuring, the connection is in force under its own name or host, nothing is retained, and counter, task and queues are as before |
| SnapshotFeed.NoTaskUntilStart | backend/app/services/snapshot_service.py:93-104 | A stopped, cleared or ended task neither polls nor publishes until `start`, which sets one going exactly when there is a source and no living task |
| SnapshotFeed.ResetIsCleanIffNoCollectorOut | backend/app/services/snapshot_service.py:136-156 | At any reachable moment: whatever follows until the next configure or clear, only data of the connection then in force is retained, if and only if no collecting worker is out at the call |
| SnapshotFeed.StaleSnapshotIsRetained | backend/app/services/snapshot_service.py:136-142 | The failing side is reached: a first poll, a configure while its worker is out, the worker's return, and the old router's snapshot is retained under the new connection |
| SnapshotFeed.HelloIsInOrderIffNothingPending | backend/app/api/v1/dashboard.py:56-63 | At any reachable moment, and whatever workers do between `subscribe` and `latest`: a client that is first sent the latest frame sees strictly rising numbers, whatever follows, if and only if at `latest` there is no frame or none is waiting to be published |
| SnapshotFeed.HelloCanRepeat | backend/app/api/v1/dashboard.py:56-63 | The failing side is reached with nothing pending at the subscription: the first worker returns between `subscribe` and `latest`, and the hello frame is sent again by the queue |
| SnapshotFeed.SnapshotService.constructor | backend/app/services/snapshot_service.py:70-89 | A new service has no frame, counter 0, no task and no subscribers |
| SnapshotFeed.SnapshotService.MakeFrame | backend/app/services/snapshot_service.py:263-287 | The next number, fallbacks for source and device, and a missing snapshot taken over from the latest frame, which the new frame replaces |
| SnapshotFeed.SnapshotService.PutLatest | backend/app/services/snapshot_service.py:293-300 | A full slot loses its frame to the new one; other queues are untouched |
| SnapshotFeed.SnapshotService.PublishUpdate | backend/app/services/snapshot_service.py:289-291 | The loop over the subscriber set delivers to exactly that set, in whatever order |
| SnapshotFeed.SnapshotService.FrameOutcome | backend/app/services/snapshot_service.py:181-183 | A raised error becomes a new disconnected frame that the task holds, and no queue changes yet |
| SnapshotFeed.SnapshotService.PublishOutcome | backend/app/services/snapshot_service.py:184-186 | The frame the task holds, whatever was framed since, reaches exactly the subscribers, and the task sleeps |
| SnapshotFeed.SnapshotService.AnnounceDisconnected | backend/app/services/snapshot_service.py:158-172 | The latest frame becomes a disconnected one without snapshot and reaches every subscriber |
| SnapshotFeed.SnapshotService.ConfigureConnection | backend/app/services/snapshot_service.py:136-142 | The new connection is in force, no frame is retained, the task and the queues are left alone |
| SnapshotFeed.SnapshotService.ClearConnection | backend/app/services/snapshot_service.py:144-156 | Connection, frame and task are dropped and the disconnect is broadcast |
| SnapshotFeed.SnapshotService.StartPolling | backend/app/services/snapshot_service.py:93-97 | A task is created only with a source and only when there is none or the last one has ended |
| SnapshotFeed.SnapshotService.AddSubscriber | backend/app/services/snapshot_service.py:128-131 | A new empty queue that was not subscribed before |
| SnapshotFeed.SnapshotService.SendGoodbye | backend/app/services/snapshot_service.py:105-106 | One turn of the farewell loop: a new disconnected frame, put on one queue only |
| SnapshotFeed.SnapshotService.BeginStop | backend/app/services/snapshot_service.py:99-102 | `stop` up to its await drops the task and nothing else |
| SnapshotFeed.SnapshotService.EndStop | backend/app/services/snapshot_service.py:105-107 | The farewell loop lists every subscriber once, in an order left open, and the result is the specified one for that order |
| Vault.MigrationPreservesValues | backend/app/db/router_store.py:187-205 | Migration changes no decrypted value, leaves only ciphertext, and a second migration changes nothing and counts nothing |
| Vault.LegacyValueWithMarkerIsNotMigrated | backend/app/db/router_store.py:200-201 | A value is rewritten if and only if it lacks the marker, and it still reads as itself afterwards if and only if it lacks the marker or the cipher decrypts what follows the marker to the whole value |
| Vault.EncryptReadsBack | backend/app/core/vault.py:66-81 | What is encrypted carries the marker and decrypts to the plaintext |
| Vault.WhenABootFails | backend/app/core/vault.py:231-254 | Exactly when an undisturbed boot refuses and with which error, which key it uses otherwise (explicit, persisted, derived, generated, in this order), that a refused boot leaves the key file as it was, and that otherwise the file holds the key used |
| Vault.EncryptedFieldRefusesNewKey | backend/app/core/vault.py:244-253 | With the key file absent and no key given or derived: a boot that consults the router rows refuses and leaves the file absent if and only if some stored password or private key begins with the marker in any case, as all ciphertext does; otherwise it writes and uses its own new key |
| Vault.ConcurrentBootsAgree | backend/app/core/vault.py:184-211 | Any number of processes without AUTH_VAULT_KEY, over any database and any cipher, interleaved at every check, create, write and re-read and crashing anywhere: whoever has a key has the one in the key file, and a key file that held a key keeps it |
| Vault.CredentialsSurviveEveryRun | backend/app/core/vault.py:222-259 | Over any run of boots, saves, migrations and crashes with AUTH_VAULT_KEY fixed and SECRET_KEY free, every keyed process, past and present, has the key in force, and every stored field decrypts to the plaintext last saved |
| Vault.DerivedKeyRecoversCredentials | backend/app/core/vault.py:240-243 | An encrypted database whose key file is gone: if every boot derives the key the rows were encrypted under, any run of boots, saves and crashes brings exactly that key back and every stored field decrypts to the plaintext last saved |
| Vault.LostKeyIsNeverReplaced | backend/app/core/vault.py:240-253 | An encrypted password or private key and no key file: no run of boots that bring no key, however interleaved, ever writes a key file, gets a key or changes a row |
| Vault.LostKeyFileReadsIffOldKey | backend/app/core/vault.py:240-254 | The key file is lost and boots bring any SECRET_KEYs: once a key file is written again, every stored credential reads if and only if the key written is the old one, given one password encrypted under the old key and not saved since, and a cipher that rejects other keys' tokens |
| VaultFields.LostKeyFieldReadsIff | backend/app/core/vault.py:240-254 | The key file of an encrypted database is lost and boots bring any SECRET_KEYs: once a key file is written again, each stored field reads if and only if the key written is the old one, or its row was saved since, or the field was not ciphertext at the outset, given a cipher whose tokens decrypt under one key only |
| Vault.BlankKeyFileStaysBlank | backend/app/core/vault.py:193-201 | Once the key file is blank and its creator is gone, no run without AUTH_VAULT_KEY writes a key or changes a row, and no boot gets a key |
| Vault.CrashAfterCreateSticks | backend/app/core/vault.py:193-203 | That state is reached: any boot that finds no key file and is not refused, and dies right after creating it |
| Vault.UninterruptedBootResolves | backend/app/core/vault.py:222-284 | A boot nobody interrupts does in five atomic steps, and any number more, what the resolution function says in one: result, key file and rows, with or without the router store |
| Vault.Host.PersistVaultKey | backend/app/core/vault.py:184-211 | An absent file is created with the key; an existing one is read instead and never overwritten |
| Vault.Host.MigrateVault | backend/app/db/router_store.py:187-205 | The loop rewrites exactly the plaintext fields and returns their number |
| Vault.Host.EnsureCredentialVault | backend/app/core/vault.py:222-259 | Key, key file, codec and migrated rows after a boot, or all but the key file unchanged after a refusal |
| Vault.Host.SaveRow | backend/app/db/router_store.py:63-91 | Credentials are refused exactly when there is no codec; otherwise one row is appended, encrypted |
| HexDump.ParseHexdump | backend/app/services/router_management.py:3601-3612 | The loop over the lines computes the decoding function on every text |
| Text.SplitAssembledLines | backend/app/services/router_management.py:3605 | Lines ended by any breaks, CR LF counting as one, and an open last line are what `splitlines` gives back |
| HexDump.RowReadsBack | backend/app/services/router_management.py:3605-3611 | A printed row of up to sixteen bytes at any offset decodes to its bytes |
| HexDump.RowLayout | backend/app/services/router_management.py:3605-3611 | A row of up to sixteen bytes has its first bar at column 60, then one character a byte, dots for unprintable ones |
| HexDump.DumpDecodesToKept | backend/app/services/router_management.py:3601-3612 | A dump decodes to the rows that were not squeezed, in order |
| HexDump.DecodeInvertsDumpIffNoRowRepeats | backend/app/services/router_management.py:3629-3663 | For any data below 4 GiB, with other bar-free output around it: the data comes back if and only if no row repeats the row before it; otherwise the result is strictly shorter |
| HexDump.DoubledRowIsHalved | backend/app/services/router_management.py:3639-3647 | A concrete failing family: sixteen bytes that come twice are downloaded once |
| Restore.PrintfReadsBack | backend/app/services/router_management.py:3615-3617 | The printed escapes of any bytes decode to them and take four characters a byte |
| Restore.ChunkDecodes | backend/app/services/router_management.py:3687-3690 | No chunk boundary falls inside an escape: chunk i is bytes 875 i up to 875 (i + 1) or the end, and it is the last chunk exactly when nothing is missing |
| Restore.Upload | backend/app/services/router_management.py:3687-3700 | Whatever answers are lost: after chunk i the router's file is at least as long as the first min(875 i, length) bytes and, if no longer, is exactly these bytes; it is these bytes after every chunk when no answer is lost |
| Restore.SendsAreEffects | router-agent/src/router_agent/transport/ssh/client.py:70-85 | A command makes at most three attempts, all of which may take effect without an answer, and is sent exactly as often as an attempt takes effect or is answered |
| Restore.PrepareRestore | backend/app/services/router_management.py:3684-3713 | Everything before the restore command: its error is that of the first of removal, chunk, count, archive test and tool test that the router refuses, or of a wrong size; without one every reply was a success, in exactly 4 commands and one for every 875 bytes, and the file is the data |
| Restore.SendRestore | backend/app/services/router_management.py:3684-3718 | The body between opening and closing: the restore command is sent only with the file equal to the data, which the size check establishes, at most once per attempt and at most three times; an error before it and nothing is sent; empty data is never restored; the result is the verdict on the router's replies, check by check, so a refused check is its own error and sends nothing |
| Restore.ExecuteRestore | backend/app/services/router_management.py:3680-3728 | Against a router that may fail or lose the answer of any command: every send carries the data, there are at most three and no more than attempts; none if the connection closes and the call fails; a cooperative router is restored exactly once; an attempt means that every reply from opening to the tool test was a success, and the result is the verdict on the replies unless closing fails |
| RestoreOverlap.OverlapPassesWronglyIff | backend/app/api/v1/management.py:604-613 | For all data: over all interleavings of two uploads of it that lose no answer, the one that is through can find a file of the right size and the wrong contents if and only if two neighbouring chunks after the first do not commute under concatenation |
| RestoreOverlap.FullNeighboursCommuteIffEqual | backend/app/services/router_management.py:3687-3700 | For two full chunks that condition is that they differ |
| RestoreJobs.ManagementJobs.CreateJob | backend/app/services/router_management.py:231-235 | A queued job without payload is added and no other job changes |
| RestoreJobs.ManagementJobs.Transition | backend/app/services/router_management.py:241-261 | Any status may follow any other; an absent result keeps the old one; unknown jobs are refused |
| RestoreJobs.StagingAcceptsExactlyGzip | backend/app/services/router_management.py:3667-3678 | An upload is accepted exactly when it is base64 and its bytes begin with 1F 8B; otherwise the error says which it is not |
| RestoreJobs.ManagementJobs.StageRestoreJob | backend/app/services/router_management.py:3853-3876 | Only a gzip upload to a known job is staged, and no other job changes |
| RestoreJobs.ManagementJobs.ConfirmRestoreJob | backend/app/services/router_management.py:3824-3851 | A confirmation dispatches nothing or the staged bytes, at most once per attempt of the transport; a success takes the payload away, a failed closing leaves it staged, and unknown or unstaged jobs are refused; over a router that answers everything in the end, an upload of one chunk succeeds and is dispatched exactly as often as the command reached the router; the job's new status, result and name are those of the router's verdict, and nothing is dispatched unless every check succeeded |
| RestoreJobs.EachUploadIsRestoredInOneGo | backend/app/services/router_management.py:3824-3876 | In every run of any stage and confirm calls on one job, whatever fails or is confirmed again: the dispatched files are the accepted uploads in order, each in one go, and none more often than one of its confirmations makes attempts on top of the attempts of earlier ones whose closing failed |
| RestoreJobs.WithoutRepeatsAtMostThrice | backend/app/services/router_management.py:3824-3876 | That bound is three for each upload when nobody confirms again after a closing that failed, and one if moreover every restore command is answered at the first attempt |
| RestoreJobs.OnlyAcceptedUploadsAreDispatched | backend/app/services/router_management.py:3667-3678 | In every run whatsoever only uploads that passed validation are dispatched, all gzip-prefixed |
| RestoreJobs.MostIsTheMaximum | backend/app/services/router_management.py:3824-3876 | For any calls whatever: the greatest number of dispatches over all their runs is the sum of these bounds over the accepted uploads; no run exceeds it and some run reaches it |
| RestoreJobs.AtMostOncePerJobIff | backend/app/services/router_management.py:3824-3876 | All runs of given calls dispatch at most once if and only if no confirmation follows one whose closing failed without an upload in between, there are no two accepted uploads each followed by a confirmation before the next, and no confirmation of an accepted upload needs a second attempt at the restore command |
| RestoreJobs.JobPerUploadRestoresOnceIff | backend/app/api/v1/management.py:571-580 | One accepted upload per job, as the route makes them, and then confirmations: at most one dispatch in all runs if and only if every confirmation but the last closes its connection and every restore command is answered at the first attempt |
| RestoreJobs.RestoredTwice | backend/app/services/router_management.py:3824-3851 | Three failing inputs for any valid upload: stage, confirm, stage, confirm; stage, confirm with a failing close, confirm; and stage, confirm with one lost answer to the restore command |
| RestoreJobs.LostAnswerRestoresTwice | backend/app/services/router_management.py:3824-3851 | One such run of the class itself: a job is created, staged and confirmed once over a router whose first answers are all lost, and any valid upload of one chunk is restored twice by a job that succeeds |
| RestoreDesk.StepIsLocal | backend/app/services/router_management.py:3824-3876 | What a call does to its job and adds to the dispatches does not depend on what any job dispatched before |
| RestoreDesk.JobsDoNotInterfere | backend/app/api/v1/management.py:571-613 | In every run of calls on any number of jobs over one router, in any order: what each job dispatches is its own accepted uploads in order, each in one go and within its bound, as if the other jobs were not there |
| RestoreDesk.TotalIsTheMaximum | backend/app/api/v1/management.py:571-613 | Over all runs of any given calls on any number of jobs, the greatest number of restores the router is sent is the sum of the jobs' own maxima; some run reaches it |
| ShellQuote.QuotingRoundTrips | backend/app/services/router_management.py:693-695 | A quoted value is one word, and a space-joined quoted list is that list of words, for all texts |
| ShellQuote.QuotedValueIsLiteral | backend/app/services/router_management.py:2539-2541 | Wherever the shell stands outside quotes the quoted value is collected literally and the shell is outside quotes again |
| ShellQuote.QuotedValueStaysInItsWord | backend/app/services/router_management.py:693-695 | Inside any command line the value lengthens one word and changes neither the words before it nor the cutting of what follows |
| OpkgStanzas.ParseOpkgStanzas | backend/app/services/router_management.py:645-669 | The loop computes the parser function on every text |
| OpkgStanzas.LinesAreTold | backend/app/services/router_management.py:651-664 | What each line is, read off the line itself: blank if it has nothing but blanks; else a continuation of its stripped text if it begins with a space or a tab; else a field cut at its first colon, its value stripped; else nothing |
| OpkgStanzas.BlankLineSeparates | backend/app/services/router_management.py:652-657 | On any input a blank line cuts it into parts that are parsed independently, and no stanza is empty |
| OpkgStanzas.ParseInvertsPrint | backend/app/services/router_management.py:645-669 | Any list of non-empty stanzas, printed with folded lines, comes back with each value's segments joined by one space |
| EventStream.Reader.Receive | frontend/lib/chat.ts:103-129 | One chunk: the handlers are called for the completed blocks of buffer and chunk, and the rest is kept |
| EventStream.Reader.ReceiveAll | frontend/lib/chat.ts:98-133 | However the stream is cut, the handler calls and the buffer are those of the whole text |
| EventStream.ReadingIgnoresCuts | frontend/lib/chat.ts:98-133 | For every text and every cutting the same blocks in the same order and the same leftover as one split of the whole |
| EventStream.BlocksAreBetweenBlankLines | frontend/lib/chat.ts:108-109 | The blocks and the rest, put together with blank lines, are the text; no blank line begins inside a block, and the rest has none |
| EventStream.BlockSaysItsDataFields | frontend/lib/chat.ts:135-143 | A block of any lines has for its data the values of its `data` fields, leading blanks taken off, one under the other, and none without a field |
| EventStream.PayloadsArriveInOrder | frontend/lib/chat.ts:108-149 | Any list of one-line non-empty payloads without a leading blank, framed and cut anywhere, is delivered as exactly that list, and the handlers are called for exactly those events |
| EventStream.FrameCarriesExactlyOneLiners | frontend/lib/chat.ts:135-143 | A framed payload is read unaltered if and only if it is empty or one line without a leading blank |
| ClientMerge.MacKeyIgnoresCaseAndSeparators | frontend/lib/clients.ts:70-76 | A text gets the key of a MAC address if and only if the two differ at most in case and in `:` and `-` |
| ClientMerge.MacKeyIsItsOwnKey | frontend/lib/clients.ts:70-76 | Normalizing a key again changes nothing, whatever text it was made from |
| ClientMerge.MacKeyIsItsDigits | frontend/lib/clients.ts:70-76 | The key of a text is the twelve hexadecimal digits left of it in lower case without colons and dashes, else the text in lower case, and none for an empty or missing text |
| ClientMerge.MergeMap.Merge | frontend/lib/clients.ts:253-265 | One merge updates or appends one entry of the insertion-ordered table |
| ClientMerge.MergeIsLastWriterWins | frontend/lib/clients.ts:253-332 | For every list of records: keys once each by first appearance, sources exactly those with a record for the key, each field from the last record that writes it |
| ClientMerge.MergeSnapshot | frontend/lib/clients.ts:270-332 | The four loops merge the records of leases, ARP, stations and neighbors in that order |
| ClientMerge.IndexAddresses | frontend/lib/clients.ts:336-345 | The index loop computes the address-to-key map of the table |
| ClientMerge.IndexFindsLastOwner | frontend/lib/clients.ts:336-345 | An address is indexed if and only if some client owns it, under the last such client's key |
| ClientMerge.BuildClients | frontend/lib/clients.ts:239-387 | The imperative build computes the client list function |
| ClientMerge.ClientsAreTheMerge | frontend/lib/clients.ts:239-387 | One client per key and none besides, by first appearance; sources, last-written fields and online state as the records say |
| ClientFields.ClientShowsTheLastEntries | frontend/lib/clients.ts:270-332 | Every property of every client, said of the snapshot's entries: signal, bytes, minutes and SSID are those of the last station with its key, the ARP state of the last ARP entry, the IPv6 address of the last neighbor, hostname and lease time of the last lease; IPv4 address, MAC and interface are those of the last entry of the last kind that has one, neighbors before stations before ARP before leases; without an entry they are null |
| ClientFields.ClientStandsForItsEntries | frontend/lib/clients.ts:347-383 | Sources are the kinds that have an entry with the key, in alphabetical order; online means a station entry or a reachable last ARP state; a lease is judged exactly when there is one; the id is MAC, IPv4 or IPv6 address, or `unknown`; the medium is judged by own MAC, WiFi membership and interface |
| ClientFields.ClientsAreTheKeysOfEntries | frontend/lib/clients.ts:270-332 | A key has a client if and only if some lease, ARP entry, station or neighbor has the key |
| ClientMerge.AddressIsOwnUnlessKeyIsAnothersAddress | frontend/lib/clients.ts:348-352 | For both families: the address shown is the client's own or none, except exactly when its key is an address another client owns, and then it is the last such owner's key |
| ClientMerge.LeaseGetsMacKeyAsAddress | frontend/lib/clients.ts:352 | A failing family: a lease without a MAC for an IPv6 address and the neighbor entry of that address give a client whose IPv6 address is a MAC key |
| Ipv4.Ipv4ToInt | frontend/lib/clients.ts:519-533 | The accumulating loop yields the base-256 value of the four octets, or nothing where a part is no octet |
| Ipv4.NumbersAreRead | frontend/lib/clients.ts:525-528 | A part is read as the numeral after any blanks and at most one sign, with the sign's value, whatever follows it, and as nothing without a numeral |
| Ipv4.AddressesAreNumbers | frontend/lib/clients.ts:519-533 | Values are below 2^32 and equal if and only if the octets are |
| Ipv4.DottedReadsBack | frontend/lib/clients.ts:519-533 | Four octets in dotted decimal form are read back |
| Ipv4.MaskIsHighOnes | frontend/lib/clients.ts:544 | For prefixes 1 to 32 the shifted complement is 2^32 - 2^(32 - prefix) |
| Ipv4.SubnetTestIsDivision | frontend/lib/clients.ts:535-546 | For all prefixes, texts and missing texts the signed 32-bit mask test holds if and only if the prefix is positive, the text has no colon, both are addresses, and they agree after division by 2^(32 - bits), where the bits are the prefix up to 32 and begin again at 1 above |
| Ipv4.NetmaskReadsBack | frontend/lib/dashboard-utils.ts:94-103 | The netmask of every prefix reads back: 0 below 1, 2^32 - 1 from 32 on, and else 2^32 - 2^(32 - bits) for the whole ones in a possibly fractional prefix |
| ContextCache.RouterContextCache.GetResult | backend/app/services/router_context_cache.py:29-46 | Miss, expiry with removal, or hit, and the counter that each moves |
| ContextCache.RouterContextCache.SetResult | backend/app/services/router_context_cache.py:48-57 | Failures are never stored; a success replaces the entry of its key only |
| ContextCache.RouterContextCache.ClearSession | backend/app/services/router_context_cache.py:64-74 | Exactly the entries of the session, or all, are removed |
| ContextCache.GetIsFreshestStore | backend/app/services/router_context_cache.py:29-46 | After any history under a nondecreasing clock a read answers the last success stored under that session and tool, with no clear since, at most the time limit ago, and nothing otherwise |
| ContextCache.CountersCountReads | backend/app/services/router_context_cache.py:59-62 | Hits are the reads that were entitled to a result, and hits and misses together all reads |
| SnapshotBuild.Executor.ExecuteOne | backend/app/services/router_tool_executor.py:61-75 | A refused tool is not called and its decision is the result; otherwise one call, a failure included |
| SnapshotBuild.Executor.Execute | backend/app/services/router_tool_executor.py:47-59 | One result per request in order, each of a recorded call of its own tool or the guard's refusal, and the permitted requests are called once each in order |
| SnapshotBuild.ReadCached | backend/app/services/router_snapshot.py:75-80 | The first loop splits the requests into what the cache answers and what it misses, read by read at the clock's readings |
| SnapshotBuild.KeepResults | backend/app/services/router_snapshot.py:81-84 | The second loop collects every result under its name and applies one store per result to the cache, dated by the clock |
| SnapshotBuild.BuildSnapshot | backend/app/services/router_snapshot.py:62-92 | The snapshot is made of what the cache answered and of calls made in this build; the new cache is the old one after exactly these operations; distinct requests run each tool at most once; each of the six sections shows the result of its own tool; if this build's calls and the entries it is served agree with one answer per tool, the snapshot is the one without a cache |
| SnapshotBuild.SectionIsServedOrRun | backend/app/services/router_snapshot.py:75-84 | A section shows a result of this build if one of its reads missed, and otherwise was not run and shows what a read answered |
| SnapshotBuild.SectionsShowTheirResults | backend/app/services/router_snapshot.py:85-92 | Each of the six sections shows the value of the result that decides the section of that very name, and nothing for a failed or unrequested one, whatever the tools answer when |
| SnapshotBuild.SnapshotIsUncached | backend/app/services/router_snapshot.py:62-92 | Cache transparency: if the tools run now and the entries served now agree with one answer per tool, the snapshot equals the one without a cache; other calls, sessions, expired entries and unrequested tools may differ; each of the six sections is then its own tool's answer if that was requested and succeeds |
| SnapshotBuild.BuildTouchesOnlyItsSections | backend/app/services/router_snapshot.py:75-84 | A build drops only expired entries of its session that it asked for, writes only its own successes, freshly dated, and leaves every success it collected in the cache |
| SnapshotBuild.SectionsAreFreshOrJustRun | backend/app/services/router_snapshot.py:62-92 | Over every run of builds and clears of any sessions under a nondecreasing clock, whatever the tools answer: a section is served if and only if at each of its reads the last success stored in the same session since the last clear is at most the time limit old, and is then that success; otherwise it was run in this build |
| SnapshotBuild.HistoryGrows | backend/app/services/router_snapshot.py:62-92 | A build or clear on the cache of such a run continues the run, and the run's log gives the new cache |
| SnapshotBuild.BuildStaysTimely | backend/app/services/router_context_cache.py:29-57 | Under a clock that never goes back every build keeps the log in order |
| Sessions.SessionStore.CreateSession | backend/app/core/auth.py:131-145 | Sweep, then the record under its token, with the given expiry or the time limit |
| Sessions.SessionStore.ResolveToken | backend/app/core/auth.py:147-155 | Sweep, then the record if it is unexpired at a second reading of the clock, else its removal |
| Sessions.SessionStore.RevokeToken | backend/app/core/auth.py:157-160 | Removal, and whether there was something to remove |
| Sessions.SessionStore.SweepLocked | backend/app/core/auth.py:162-166 | The loop removes exactly the expired records |
| Sessions.KeptIffUnexpiredAtLastLook | backend/app/core/auth.py:131-166 | A token is held if and only if it is granted and was unexpired when the store last looked |
| Sessions.ResolveSeesOnlyExpiry | backend/app/core/auth.py:147-155 | Over every timely log `resolve` answers the record if and only if the token was created, not revoked since and is not yet expired: sweeping cannot be seen |
| Sessions.RevokeTellsWhetherSwept | backend/app/core/auth.py:157-160 | `revoke` answers true if and only if the token is granted and was unexpired at the last look |
| Sessions.RevokeIsNotAFunctionOfTheGrant | backend/app/core/auth.py:157-160 | Two logs that grant the same and resolve the same differ in what `revoke` answers |
| Recommendations.Generate | backend/app/services/router_recommendation.py:181-200 | The grouping loop, the builds and the sort compute the report function |
| Recommendations.BuildGroups | backend/app/services/router_recommendation.py:192-194 | The groups that have findings, and only those, in table order |
| Recommendations.GroupFindings | backend/app/services/router_recommendation.py:183-190 | The loop gives every group exactly its findings in their order, and collects those of no group |
| Recommendations.EachFindingIsAbsorbedOnce | backend/app/services/router_recommendation.py:181-200 | The findings the recommendations stand for are, as a multiset, the findings reported |
| Recommendations.PriorityIsThatOfTheWorst | backend/app/services/router_recommendation.py:208-212 | Every recommendation has the priority of the most severe finding it absorbs, and absorbs at least one |
| Recommendations.PriorityTellsSeverities | backend/app/services/router_recommendation.py:20-25 | A recommendation is urgent exactly if it absorbs a critical finding, high exactly if it absorbs a warning and nothing critical, and medium exactly if it absorbs notes alone |
| Recommendations.ItemsSpeakForTheirFindings | backend/app/services/router_recommendation.py:202-232 | Each recommendation either merges findings whose titles its group is the first to list, in the group's words and with their titles in order, or passes on one finding of no group in its own words under an id spelled from its title |
| Recommendations.EveryFindingIsAnswered | backend/app/services/router_recommendation.py:181-200 | Each finding is met by a recommendation at least as pressing, and each recommendation's priority is that of some finding |
| Recommendations.SortIsTheStableSort | backend/app/services/router_recommendation.py:196 | A permutation, heavier first and equal weights by id, equal keys in their old order |
| Recommendations.ReportHoldsTheItems | backend/app/services/router_recommendation.py:192-200 | The report is the ordered, stable permutation of built and generic items |
| Recommendations.UrgentFirstIffCritical | backend/app/services/router_recommendation.py:181-200 | The report is empty if and only if there are no findings, and begins with an urgent recommendation if and only if a finding is critical |
| Recommendations.TableIsUnambiguous | backend/app/services/router_recommendation.py:48-121 | In the shipped table keys are distinct and no title is in two groups, so a finding's group is the one listing its title |

## Left out

- Live feed: time stamps and polling interval; data races inside one `_frame` call; the work of the collectors, which is an arbitrary outcome.
- Live feed: the environment's choice of transport and device, which are parameters of the constructor.
- Vault: file permission bits, read errors of the key file, and creation failing for any reason but an existing file.
- Vault: the SHA-256 derivation and Fernet key formats; a derived key, a generated key and the verdict on an explicit key are given.
- Vault: `upsert` keeps stored credentials that a call omits; here an update saves the whole row. Row deletion is not modelled.
- Vault: a key file removed or replaced by hand during a run.
- Downloads: that the router's `hexdump` is the printer modelled here, and base64 transport of the archive to the browser.
- Restore: the local daemon threads of the transport, whose close is one command that may fail; time-outs, messages, error texts and artifacts of jobs; the status a job has while its confirmation is under way; names of uploaded files; base64 is any decoder that maps the empty text to no bytes.
- RestoreJobs.EachUploadIsRestoredInOneGo: confirmations follow one another, those of other jobs included; overlapping ones can also restore one upload twice. Of them only the file is modelled, in `RestoreOverlap.dfy`.
- RestoreOverlap.OverlapPassesWronglyIff: two uploads of the same bytes that lose no answer; uploads of different bytes, lost answers during an overlap, and a file that changes between the size check and the restore command are not covered.
- Restore: an attempt whose answer was lost and that has its effect only after a later command.
- Shell: expansions, operators and redirections are one absorbing state of the tokenizer; the guarantees are about lines that stay outside it.
- Event stream: decoding of UTF-8 and JSON; chunks are decoded text. CR line ends and other fields of the standard, which the reader does not treat either.
- Client list: case conversion beyond ASCII; the network medium and whether a lease is active are functions given from outside; a missing snapshot, which gives an empty list.
- Client list: filtering, sorting (`sortClients`, `compareIp`) and labels would add only easy members.
- Context cache: the lock; concurrent builds. Rendering and pruning of snapshots.
- Sessions: randomness of tokens; the theorems hold for repeated tokens as well. Scope checks and login.
- Recommendations: the wording of the groups is a parameter; letters beyond ASCII in ids; rendering. The diagnosis that produces findings.
- Read-only collectors, health scores, formatters, HTTP and user interface code: many fields, shallow facts.
