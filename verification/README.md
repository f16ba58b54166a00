# Verification of the control plane and its host agents

The repository is a control plane for a fleet of machines. A browser talks to it over RPC, and an agent on
every machine carries out its requests. This project models the parts of it that hold state, or that must
undo one another, and proves what they promise:

* **The upload path** (`Multipart`, `PartHeader`, `RpcMultipart`, `AgentUploads`, `UploadFile`,
  `UploadPipeline`). The browser slices a file into requests, a streaming multipart reader takes each request
  off the network in whatever chunks it comes, `uploadFile` cuts the bytes into blocks again, and the agent
  appends each block to a temporary file that a rename publishes at the end. Every stage is a class or a
  method with the loops of the source. The composition is the identity on files, and the agent never shows
  anything but old or complete files, whatever is lost, repeated, reordered, torn, aborted or left to expire.
  A call that throws may still have published the file: exactly when the block that ends it was taken and only
  its acknowledgement was lost. For a whole file this is exact over every network: requests cut off anywhere,
  writes that tear, replies lost at either of the two hops.
* **Batch rename** (`BatchRename`). Simultaneous renaming through temporary names, in which every single
  rename may fail. What the batch leaves is stated row by row for every way it can go. The comment above phase
  two says that a row that failed to park is never renamed over. That is false as written: a two-row swap that
  the preview accepts is a counterexample. A batch is safe whatever fails exactly when it takes no detour through
  temporary names, and a phase two with one more guard is safe always. A rename may also be carried out while its
  reply is lost; what the browser then reports is right exactly when no such rename occurs and nothing was renamed
  over.
* **Tasks and self-update** (`Tasks`, `ControlPlane`). The runner, the bounded store, the pending-update
  marker and the settling of orphaned runs at boot form one machine. Runs execute side by side, the writes they
  issue land in any order or not at all, and a crash may come between any two steps. A terminal record on disk is
  therefore not always final; it is final exactly when no write still in flight is older than the run's end.
* **The fleet and its requests** (`Fleet`, `Requests`, `ExecLines`). One active agent per machine, the embedded
  one active in every state but those in which a later arrival also claims to be embedded, requests
  that settle exactly once and as the first event that ends them says, and log lines that do not depend on how output was cut up.
* **Accounts** (`Accounts`, `AccountLog`, `Throttle`). Every call is answered exactly as the calls before it and
  their answers say: which login succeeds, which token authenticates, which session can be revoked, what is
  refused and why. One owner, unique names and addresses, and a tight bound on password guessing.
* **Printers against parsers** (`ShellQuote`, `IpText`, `IpGrammar`, `ClientIp`, `Percent`, `Routes`) and **permission
  patterns** (`Permissions`).

`Bytes`, `Text` and `Numerals` hold what several of these share.

Code that changes things in place is modelled by classes and by methods with loops. Each of these is proved
equal to a function of its inputs or of the old state, and what the source promises is then proved about that
function, over every input or every run. Foreign calls are parameters: the operating system's luck, the clock,
fresh names, and the JSON decoder.

Where code and comments differ, the model follows the code:

* `BatchRenameModal.tsx:167` promises more than phase two delivers (`BatchRename.SwapLosesAFile`).
* `embedded-agent.ts:18` says that the embedded agent always stays the active connection. It outranks every
  other mode, but ties go to the newcomer (`fleet.ts:51`), and the mode is whatever a connecting agent says it is
  (`node-server.ts:337`). So it stays active exactly as long as no later arrival on its machine claims to be
  embedded as well (`Fleet.Fleet.LocalIsActiveIff`, `Fleet.ChallengerTakesOver`).
* The store saves as if the last save issued were the last to land. Nothing queues the writes, so a run that is on
  disk as succeeded can come back as interrupted (`ControlPlane.SuccessTakenBack`, `ControlPlane.FinalIff`).
* `uploadFile` treats every failure as an upload that is over. After a lost last acknowledgement the file is
  published all the same (`UploadFile.UnheardIsPublished`; a file of one byte in
  `UploadFile.LostAcknowledgement`).
* The batch rename's lists take every rejected request for a rename that did not happen. After a lost reply they
  report a renamed file as left under its old name, and a parked one under a name that is not its own
  (`BatchRename.LostReplyMisleads`, `BatchRename.LostParkingMisleads`, `BatchRename.ToldTrueIff`).
* `routes.ts` reads a route back unchanged exactly when it is in normal form (`Routes.RoundTripIff`). A
  volume's root folder, for one, is written as no path at all (`Routes.VolumeRootIsDropped`), and an empty server
  id is not read back.

## Model

| member | source | states |
|---|---|---|
| Multipart.IndexOfSub | apps/server/src/http/multipart.ts:40-51 | the result is the first place at or after `from` where the needle occurs, and -1 only when there is none |
| Multipart.ByteCursor.Fill | apps/server/src/http/multipart.ts:79-90 | pulling a chunk moves it from the stream to the buffer and loses nothing; false only at the end of the stream |
| Multipart.ByteCursor.Take | apps/server/src/http/multipart.ts:92-96 | what is taken and what remains are the old stream |
| Multipart.ByteCursor.ReadExact | apps/server/src/http/multipart.ts:99-106 | succeeds exactly when that many bytes are left on the stream, whatever its chunks, and then consumes just those |
| Multipart.ByteCursor.ReadUntil | apps/server/src/http/multipart.ts:110-129 | cuts the stream at the first occurrence of the needle, also one that straddles chunks; never "oversized" when the match ends within limit + 1 bytes; a failure consumes nothing and says which limit was hit; the buffer stays within the limit and one chunk |
| Multipart.ByteCursor.NextChunk | apps/server/src/http/multipart.ts:136-156 | a suspended generator's step: what was yielded, what is buffered and what is unread are the stream; it ends at the first needle, fails only when there is none, and holds less than one needle between fills |
| Multipart.DeliverMore | apps/server/src/http/multipart.ts:146-151 | the part of the buffer that is emitted cannot contain the start of a needle, including one completed by later chunks |
| Multipart.MissSoFar | apps/server/src/http/multipart.ts:119-121 | resuming the scan one needle short of the end misses no occurrence |
| PartHeader.NameRoundTrip | apps/server/src/http/multipart.ts:175-184 | the field name written into a disposition header is the name the parser finds, for every name without a quote or carriage return and whatever follows it |
| PartHeader.EncodedName | apps/server/src/http/multipart.ts:240-245 | the same through the bytes of the header block |
| PartHeader.PartNameIff | apps/server/src/http/multipart.ts:175-184 | for any header block: the name is that of the first disposition line, and no other line counts |
| PartHeader.NameInIff | apps/server/src/http/multipart.ts:180-181 | for any line: the name is that of its leftmost `name` parameter, quoted or else bare, in any case and spacing |
| PartHeader.DispositionIff | apps/server/src/http/multipart.ts:177 | a disposition line is that word in any case, white space, and a colon |
| PartHeader.HeaderLinesAre | apps/server/src/http/multipart.ts:176 | the lines joined are the block, and none holds a line break |
| RpcMultipart.HeaderUnique | apps/server/src/http/multipart.ts:232-246 | a stream starts with at most one header block |
| RpcMultipart.PartUnique | apps/server/src/http/multipart.ts:279-306 | framing is unambiguous: a stream starts with at most one part |
| RpcMultipart.DelimiterEndsBody | apps/server/src/http/multipart.ts:223-225 | a payload that does not contain the delimiter cannot start one that straddles its end |
| RpcMultipart.HeaderEnds | apps/server/src/http/multipart.ts:240 | the same for a header block and the blank line after it |
| RpcMultipart.FrameOnWire | apps/server/src/http/multipart.ts:232-306 | what section 5.1.1 of RFC 2046 lays out is exactly what the reader takes to be that part |
| RpcMultipart.FramesInjective | apps/server/src/http/multipart.ts:223-306 | two well-formed lists of parts with the same bytes, each closed by two dashes, are the same list |
| RpcMultipart.OpenPart | apps/server/src/http/multipart.ts:232-246 | takes a header block off the wire and its name, or recognizes the terminator; any well-formed header within its limit is accepted |
| RpcMultipart.RpcBody.constructor | apps/server/src/http/multipart.ts:271-309 | no part has been read, and the body is finished only if none is declared |
| RpcMultipart.RpcBody.Stream | apps/server/src/http/multipart.ts:315-323 | a part can be opened only when it is the next on the wire and only once; "already read" exactly for parts before it or the one open |
| RpcMultipart.RpcBody.OpenCurrent | apps/server/src/http/multipart.ts:279-284 | the part on the wire must carry the declared name |
| RpcMultipart.RpcBody.Advance | apps/server/src/http/multipart.ts:285-306 | each chunk keeps the part within its declared size and the total within its cap; the part closes exactly at its delimiter, with its declared size; a part that is whole is never refused |
| RpcMultipart.RpcBody.ReadPart | apps/server/src/http/multipart.ts:279-341 | the chunks of a part are its body byte for byte, and the stream is left at the next part |
| RpcMultipart.RpcBody.Drain | apps/server/src/http/multipart.ts:348-357 | nothing is left on the socket unless every part was read |
| RpcMultipart.OpenMeta | apps/server/src/http/multipart.ts:227-251 | the preamble ends at the first delimiter, and the first part must be the meta part |
| RpcMultipart.ReadMeta | apps/server/src/http/multipart.ts:248-269 | the meta part is the first part on the wire and its declared total is within the cap; every well-formed body is accepted |
| RpcMultipart.ParseRpcMultipart | apps/server/src/http/multipart.ts:212-309 | returns with the declared parts still on the wire, none of them opened |
| RpcMultipart.ReadAll | apps/server/src/http/multipart.ts:311-344 | reading every part in declaration order: on any stream whatever, what is read is exactly the parts that follow each other on the wire, each with its declared name and size; on a rendered body it succeeds |
| RpcMultipart.Receive | apps/server/src/http/multipart.ts:212-359 | a rendered message, however the network splits it, parses to the same fields and byte-identical parts; and on any stream, what is accepted is what `Accepts` finds there, no more than the cap in all |
| RpcMultipart.AcceptedIsRendered | apps/server/src/http/multipart.ts:212-359 | so a stream that is accepted is a preamble, a rendered message with those parts and nothing between them |
| RpcMultipart.AcceptsUnique | apps/server/src/http/multipart.ts:212-359 | and it is accepted in one way only: the bytes determine the fields, the parts and where each begins |
| RpcMultipart.CutOpens | apps/server/src/http/multipart.ts:227-269 | of a rendered message that is cut off, a meta part that is read is the message's own |
| AgentUploads.Agent.RunUploadChunk | apps/server/src/agent/agent.ts:775-824 | for any chunk at all: takes it only where the temp file ends and only for the same path; otherwise leaves what a discard cleans up |
| AgentUploads.Agent.Append | apps/server/src/agent/agent.ts:811-823 | the data goes at the end of the temp file, and the last chunk replaces the target by the whole temp file; a torn write leaves nothing a discard does not remove |
| AgentUploads.Agent.DiscardUpload | apps/server/src/agent/agent.ts:831-840 | the entry and its temp file go, and nothing else |
| AgentUploads.Agent.ReceiveChunk | apps/server/src/agent/agent.ts:395-407 | a rejected chunk ends its upload; entries and temp files stay matched one to one as long as a chunk that starts an upload is not aimed at a live temp file |
| AgentUploads.ChunkIs | apps/server/src/agent/agent.ts:775-840 | everything any chunk does, whoever sends it: when it is taken, what it then adds or publishes, what goes when it is refused, and that nothing else changes |
| AgentUploads.ChunkKeepsWf | apps/server/src/agent/agent.ts:775-840 | under that condition, and whatever else a chunk says, live entries and their temp files match one to one and each entry's count is its file's length |
| AgentUploads.StepIsSafe | apps/server/src/agent/agent.ts:395-412 | one honest chunk, abort or expiry, for targets of any name: temp files stay prefixes of their files, and every other path is old or complete |
| AgentUploads.RunIsSafe | apps/server/src/agent/agent.ts:775-840 | the same over every run of chunks that are lost, repeated, reordered or torn, aborts and expiries |
| AgentUploads.FromIdle | apps/server/src/agent/agent.ts:775-840 | in particular from an idle agent |
| AgentUploads.TargetsAreOldOrComplete | apps/server/src/agent/agent.ts:775-840 | so a path some upload is bound for is never seen half-written, and never lost |
| AgentUploads.ReadyIsTaken | apps/server/src/agent/agent.ts:796-816 | a chunk that continues the upload is acknowledged with the position after it, and the next one may follow |
| AgentUploads.SplitChunk | apps/server/src/agent/agent.ts:775-824 | two consecutive chunks leave exactly what the one chunk they make up would have left |
| AgentUploads.WholeFilePublishes | apps/server/src/agent/agent.ts:819-823 | a whole file in one chunk changes the target and nothing else |
| UploadFile.TakeFront | apps/server/src/host-agent.ts:498-505 | splits exactly n bytes off what was read, losing none |
| UploadFile.BlockLands | apps/server/src/agent/agent.ts:775-824 | the host takes the next block exactly when it could start and the write succeeds, and then stands where one chunk with all the bytes so far would have put it |
| UploadFile.NonFinalStaysPrivate | apps/server/src/agent/agent.ts:775-840 | until the last block is acknowledged, no path but this upload's own temp file changes |
| UploadFile.StillPrivate | apps/server/src/agent/agent.ts:775-840 | that no path but an upload's own temp file differs carries over from one request to the next |
| UploadFile.NoTrace | apps/server/src/agent/agent.ts:831-840 | an upload that leaves no entry leaves nothing |
| UploadFile.BlockStaysPrivate | apps/server/src/host-agent.ts:507-519 | at every block short of the last being taken, no path but this upload's own temp file differs |
| UploadFile.SendBlock | apps/server/src/host-agent.ts:507-519 | acknowledged iff the host takes the block and both trips succeed; a block taken but unacknowledged has landed all the same; otherwise nothing but this upload's own temp file differs |
| UploadFile.FlushBlocks | apps/server/src/host-agent.ts:535-537 | full blocks only, in order; less than one block stays behind |
| UploadFile.ForwardFullBlocks | apps/server/src/host-agent.ts:522-538 | blocks sent and bytes pending are always the bytes read |
| UploadFile.SendRemainder | apps/server/src/host-agent.ts:539-547 | the remainder goes out, also an empty one when it ends the file; its fate is the request's |
| UploadFile.LastBlockDecides | apps/server/src/host-agent.ts:539-547 | with the full blocks acknowledged, what becomes of the last one decides the whole request, both ways |
| UploadFile.UploadFile | apps/server/src/host-agent.ts:481-558 | succeeds iff the stream is intact, the host can start and every block is taken and acknowledged, and re-chunking is then invisible; on failure the file is published iff the block that ends it was taken and its acknowledgement lost, and otherwise only this upload's own temp file differs; an abort that arrives ends the upload; no block exceeds UPLOAD_CHUNK_BYTES |
| UploadFile.AbortKeepsOutcome | apps/server/src/host-agent.ts:548-554 | an abort removes the upload and neither hides a published file nor shows a partial one |
| UploadFile.UnheardIsPublished | apps/server/src/host-agent.ts:539-554 | what a call that throws after a lost last acknowledgement has published: all the upload held and all of this request, and nothing else |
| UploadFile.LostAcknowledgement | apps/server/src/host-agent.ts:507-554 | an input on which the call throws and the file is published: one byte, its only block taken, the reply lost |
| UploadPipeline.SendableIsWellFormed | apps/web/src/components/FilesView.tsx:229-231 | an upload call within its limits is a well-formed multipart body, whatever of its ending arrives |
| UploadPipeline.ContentIndexIs | apps/server/src/http/multipart.ts:311-323 | the content is the last declared part of that name |
| UploadPipeline.ReceiveContent | apps/server/src/http/multipart.ts:212-359 | of a call that arrives whole or cut off anywhere, in whatever chunks: nothing but its own fields comes out, and its content part comes out byte for byte exactly when the part's closing delimiter has arrived |
| UploadPipeline.HandleUpload | apps/server/src/host-agent.ts:481-558 | one upload call, however little of it arrives and whatever goes wrong at the host, comes to exactly what `UploadFile` promises for the call's own slice: success iff it arrives whole and every block is taken and acknowledged, and the state after every failure |
| UploadPipeline.UploadSlice | apps/web/src/components/FilesView.tsx:226-242 | what one request of a file comes to, each in a form and with a boundary of its own: the host that holds the file up to this slice holds it up to the next, or has published it, or nothing but the upload's temp file differs, with the condition for each |
| UploadPipeline.UploadOne | apps/web/src/components/FilesView.tsx:225-246 | over every network: the upload is reported done iff the host can start and every request gets through and is heard; the file, of any length, is published byte for byte and nothing else changed iff all requests but the last do so and the last one's end is taken; otherwise only this upload's own temp file differs |
| UploadPipeline.LastRequestIs | apps/web/src/components/FilesView.tsx:225-242 | which request ends the file, for every length, empty and multiples of the slice size included |
| BatchRename.Plan | apps/web/src/components/BatchRenameModal.tsx:126-147 | each row gets its first problem: a bad name, a slash, a target some other row shares, or a taken name that no selected row gives up |
| BatchRename.ProblemFreeIff | apps/web/src/components/BatchRenameModal.tsx:126-147 | the preview has nothing against a plan iff every target is a plain name (not empty, `.` or `..`, no slash), no two are the same, and each is free or given up by a row of the plan |
| BatchRename.ProblemTells | apps/web/src/components/BatchRenameModal.tsx:135-144 | what the preview says of a row is the first thing wrong with it |
| BatchRename.PlanIsMovable | apps/web/src/components/BatchRenameModal.tsx:126-155 | a plan without problems has distinct targets, and a taken one is the name of a row that is itself about to move |
| BatchRename.Folder.Rename | apps/web/src/components/BatchRenameModal.tsx:176-187 | a rename replaces what is in the way or changes nothing, and the browser hears of a success only when its reply arrives |
| BatchRename.LayoutIsExact | apps/web/src/components/BatchRenameModal.tsx:157-204 | saying where each row is, and that nothing else changed, determines the folder |
| BatchRename.MoveRow | apps/web/src/components/BatchRenameModal.tsx:187 | one rename moves one row and ends whichever row was in its way |
| BatchRename.Park | apps/web/src/components/BatchRenameModal.tsx:172-182 | phase one carries on past failures, drops every row it has not heard to be parked, and reports it |
| BatchRename.ParkStep | apps/web/src/components/BatchRenameModal.tsx:173-181 | parking a row disturbs no other |
| BatchRename.Finish | apps/web/src/components/BatchRenameModal.tsx:184-195 | phase two tries every pending row in order and reports each with the name it was last known under |
| BatchRename.FinalStep | apps/web/src/components/BatchRenameModal.tsx:184-195 | a final rename ends a row exactly when that row never left its name and that is the target |
| BatchRename.Rename | apps/web/src/components/BatchRenameModal.tsx:157-204 | whatever fails, and whichever replies are lost, each row's file is exactly where the outcome says, everything else is untouched, and the lists hold exactly what the browser heard |
| BatchRename.AllSucceed | apps/web/src/components/BatchRenameModal.tsx:157-204 | when every row is moved, heard of or not, any permutation or cycle comes out as the simultaneous renaming |
| BatchRename.FolderAfterIs | apps/web/src/components/BatchRenameModal.tsx:157-204 | the folder a batch leaves, row by row, for every pattern of failures |
| BatchRename.NamesStayPlain | apps/web/src/components/BatchRenameModal.tsx:157-204 | whatever fails, a batch the preview accepts leaves only plain names in a folder of plain names |
| BatchRename.LosslessIff | apps/web/src/components/BatchRenameModal.tsx:167-195 | every file survives if and only if no row is moved onto one that never left its name |
| BatchRename.SafeWhateverFails | apps/web/src/components/BatchRenameModal.tsx:184-195 | given what really parked, phase two is safe whatever fails in it if and only if no pending target is a name whose row never left it |
| BatchRename.SafeAsFarAsHeard | apps/web/src/components/BatchRenameModal.tsx:167-195 | given only what the browser has heard of phase one, phase two is safe whatever really happened and whatever fails in it if and only if no pending target is the name of a row not heard to be parked |
| BatchRename.ParkingIsTheOnlyDanger | apps/web/src/components/BatchRenameModal.tsx:165-195 | a batch in which every row got out of the way loses nothing whatever fails in phase two, and neither does one without phase one |
| BatchRename.SafeIffUnstaged | apps/web/src/components/BatchRenameModal.tsx:157-204 | known before the batch starts: for a plan the preview accepts, every file survives every pattern of failures if and only if no moving row's target is a selected row's name |
| BatchRename.SwapLosesAFile | apps/web/src/components/BatchRenameModal.tsx:167-169 | the comment does not hold: swap two files, a plan the preview accepts, let the second fail to park, and of the two only the first is left, under the second's name |
| BatchRename.ListsTell | apps/web/src/components/BatchRenameModal.tsx:178-195 | the two lists and the names in the messages put every row in exactly one place |
| BatchRename.RowToldIff | apps/web/src/components/BatchRenameModal.tsx:178-195 | that place is where the row's file is if and only if no rename of it went unheard and it was not renamed over |
| BatchRename.ToldTrueIff | apps/web/src/components/BatchRenameModal.tsx:157-204 | so what the browser reports of a batch is right if and only if every rename carried out was heard of and nothing was renamed over |
| BatchRename.LostReplyMisleads | apps/web/src/components/BatchRenameModal.tsx:184-195 | an input on which it is wrong: one file renamed, the reply lost, and reported as left under its old name |
| BatchRename.LostParkingMisleads | apps/web/src/components/BatchRenameModal.tsx:173-181 | another: a swap whose first parking goes unheard leaves that file under a temporary name no message mentions |
| BatchRename.FinishGuarded | apps/web/src/components/BatchRenameModal.tsx:184-195 | phase two with a guard that leaves a row parked while its target is among the rows not heard to be parked: the folder and both lists |
| BatchRename.GuardedIsSafe | apps/web/src/components/BatchRenameModal.tsx:167-195 | with the guard no row is ever moved onto one that never left its name, although the guard sees only what was heard |
| BatchRename.GuardedIsSame | apps/web/src/components/BatchRenameModal.tsx:184-195 | the guard changes nothing when no pending target is the name of a row not heard to be parked |
| BatchRename.RenameGuarded | apps/web/src/components/BatchRenameModal.tsx:157-204 | the whole batch with that phase two keeps every file whatever fails and whichever replies are lost, and leaves the same folder as the source's whenever no target is blocked |
| BatchRename.GuardedToldIff | apps/web/src/components/BatchRenameModal.tsx:157-204 | and what it reports is right if and only if every rename carried out was heard of |
| Tasks.PutIs | apps/server/src/tasks/store.ts:71-75 | ids stay distinct and the store bounded, the run is stored, and at most the run inserted longest ago is dropped |
| Tasks.TaskStore.Put | apps/server/src/tasks/store.ts:71-75 | the store's whole new contents, and what the write it issues carries |
| Tasks.TaskStore.Prune | apps/server/src/tasks/store.ts:94-102 | what is left is the newest MAX_RUNS by insertion |
| Tasks.TaskStore.Init | apps/server/src/tasks/store.ts:27-32 | every stored run is loaded and settled |
| Tasks.TaskStore.ReapOrphans | apps/server/src/tasks/store.ts:47-68 | each run left mid-flight is settled once by the resolver's verdict or as interrupted, the others are untouched, and the file agrees with memory |
| Tasks.SettleIs | apps/server/src/server-install.ts:289-303 | a settled run is terminal, succeeded exactly when the marker names it and the booted version, and otherwise carries the error for its case: both versions, or interrupted |
| Tasks.TaskStore.List | apps/server/src/tasks/store.ts:82-91 | the listing is the newest-first order of the runs that meet both filters, for any target and any kind, cut only by a non-zero limit |
| Tasks.ListingIs | apps/server/src/tasks/store.ts:82-91 | a listing is every run asked for, as often as it is stored, newest first and ties as stored, cut short only by a limit that is not zero |
| Tasks.WhereCounts | apps/server/src/tasks/store.ts:84-89 | filtering keeps every run that meets both filters as often as it was there, and no other |
| Tasks.WhereSorted | apps/server/src/tasks/store.ts:83-89 | a filtered listing is still newest first |
| Tasks.NewestFirstIs | apps/server/src/tasks/store.ts:83 | that order is sorted, has every run once, and keeps ties in insertion order |
| Tasks.RunLog.Log | apps/server/src/tasks/runner.ts:72-81 | the buffer is always the last MAX_LOG_LINES of everything logged |
| ControlPlane.StepKeeps | apps/server/src/tasks/runner.ts:45-102 | every step of a run, of its saves, of the self-update and of the boot, and a crash anywhere, keeps the invariant: well-formed runs, one record per run, no orphan while up, no text older than its run that says something final the run does not, markers used in order |
| ControlPlane.TraceKeeps | apps/server/src/tasks/runner.ts:45-102 | so does every run of the machine, with any number of writes in flight and landing in any order |
| ControlPlane.PutByReference | apps/server/src/tasks/store.ts:71-75 | a store of references to run objects, as the source's map is, holds after a put exactly the records that the store of values holds |
| ControlPlane.NothingRunsAfterBoot | apps/server/src/tasks/store.ts:34-68 | after every boot, whatever crashed before and whatever was in flight, no run is pending or running, in memory or on disk |
| ControlPlane.OverOnce | apps/server/src/tasks/runner.ts:89-97 | in one process a run is over once: its record in memory never changes after that |
| ControlPlane.RecordTells | apps/server/src/tasks/runner.ts:38-97 | in every reachable state of a process up, a run's record says what last happened to it: created, begun, returned from, or failed with what its handler threw |
| ControlPlane.RecordKeepsKind | apps/server/src/tasks/runner.ts:38-50 | and throughout what kind of run it is, of what, and when it was created |
| ControlPlane.StepTakesBackIff | apps/server/src/tasks/store.ts:71-106 | a step takes a terminal record back if and only if it lands a write that was put into words before the run was over |
| ControlPlane.FinalIff | apps/server/src/config.ts:282-285 | a terminal record on disk stays that run's record, whatever happens next, if and only if no write in flight was put into words before the run was over |
| ControlPlane.BootedIsFinal | apps/server/src/tasks/store.ts:47-68 | what a boot has written is final without any condition |
| ControlPlane.QueuedIsFinal | apps/server/src/tasks/store.ts:104-106 | if no save is issued while another is in flight, every terminal record that reaches the disk is final |
| ControlPlane.SuccessTakenBack | apps/server/src/fs-atomic.ts:40-56 | the input on which it is not: another run's older save lands over a succeeded run's, the process dies, and the boot settles that run as interrupted |
| ControlPlane.UpdateSuccessIsVouched | apps/server/src/server-install.ts:281-303 | a self-update run shows as succeeded only if a process that booted as the version its marker names settled it; a marker settles runs on at most one boot |
| ControlPlane.MarkerWritten | apps/server/src/server-install.ts:245-277 | a marker on disk was written by a self-update, which it names, in a process of another version than the marker's |
| ControlPlane.JustifiedByBoot | apps/server/src/server-install.ts:289-303 | only a boot holding the marker, over a run left mid-flight, can vouch for it |
| ControlPlane.BootSettles | apps/server/src/config.ts:304-320 | a boot takes the marker, settles the store and writes it, and starts nothing |
| ControlPlane.BootDecides | apps/server/src/server-install.ts:294-302 | succeeded iff the marker names the run and the booted version; "interrupted" iff no marker names it |
| ControlPlane.UpdateAcrossRestart | apps/server/src/server-install.ts:267-277 | dying just before the symlink moves comes back as failed with both versions named; dying just after comes back as succeeded |
| Fleet.ActiveIsUnique | apps/server/src/fleet.ts:48-56 | the last-arrived among those of maximal rank is one agent |
| Fleet.ActiveIsFirstChoice | apps/server/src/fleet.ts:7-56 | named by mode: an embedded agent is active iff none arrived after it; an installed one iff there is no embedded one and no later installed one; a live one iff all are live and it is the last |
| Fleet.ArrivalTakesOver | apps/server/src/fleet.ts:51-52 | an arrival becomes active iff nothing connected outranks it, and otherwise changes nothing |
| Fleet.NewcomerWins | apps/server/src/fleet.ts:48-56 | a newcomer is the active one of the longer list iff everything there gives way to its mode (to embedded everything, to installed all but embedded, to live only live); otherwise the same agent is as before |
| Fleet.StandbyLeaves | apps/server/src/fleet.ts:102-127 | a standby's departure leaves the active agent active |
| Fleet.StandbyLeft | apps/server/src/fleet.ts:102-117 | the same agent is active in the list a standby leaves behind |
| Fleet.EmbeddedIsActiveIff | apps/server/src/fleet.ts:48-56 | an embedded agent is the active one of a list iff no agent that arrived after it claims to be embedded |
| Fleet.ActiveOf | apps/server/src/fleet.ts:48-56 | the scan finds that agent, and nothing only in an empty list |
| Fleet.Reconcile | apps/server/src/fleet.ts:59-70 | afterwards exactly the active agent's flag is set |
| Fleet.Fleet.constructor | apps/server/src/fleet.ts:30-45 | a registry with the embedded agent alone connected and active, every stored machine known but the legacy one |
| Fleet.Fleet.LocalIsActiveIff | apps/server/src/agent/embedded-agent.ts:15-18 | in every state of the registry the control plane's own agent is active iff no later arrival on its machine claims to be embedded |
| Fleet.Fleet.ActiveByMode | apps/server/src/fleet.ts:48-70 | in every state of the registry the active flags are those |
| Fleet.Fleet.Register | apps/server/src/fleet.ts:86-98 | keeps the invariant (non-empty duplicate-free lists, one active agent each, connected machines known, the embedded agent among them); the agent joins its machine's list once and the record is the active agent's; a newcomer becomes active iff everything there gives way to its mode, and otherwise changes nobody's standing; exactly a newcomer of its machine that claims to be embedded challenges the embedded agent |
| Fleet.Fleet.Deregister | apps/server/src/fleet.ts:100-118 | keeps the invariant; removes that connection only; a standby's departure changes nobody's standing, the active agent's promotes a standby when one is left, and the last one's leaves the machine remembered with its last mode and the time; never costs the embedded agent its place |
| Fleet.Fleet.Remove | apps/server/src/fleet.ts:125-134 | only a known machine that is not connected is forgotten |
| Fleet.Serve | apps/server/src/fleet.ts:86-134 | over every run of arrivals, departures and removals the embedded agent stays active if nothing else that arrives on its machine claims to be embedded |
| Fleet.ChallengerTakesOver | apps/server/src/node-server.ts:329-340 | and not otherwise: a second agent that identifies itself as embedded is active afterwards, and the control plane's own is not |
| Fleet.Fleet.Entries | apps/server/src/fleet.ts:152-183 | every known machine exactly once: connected ones under their active agent with the rest as standbys in arrival order, the others offline |
| Requests.HostAgent.Request | apps/server/src/host-agent.ts:247-260 | the request waits with its own timer |
| Requests.HostAgent.StreamExec | apps/server/src/host-agent.ts:376-413 | the request waits with a timer and an empty sink for each stream |
| Requests.HostAgent.Settle | apps/server/src/host-agent.ts:254-257 | settling stops the timer, drops the sink of a streaming request, and records one verdict |
| Requests.HostAgent.ReceiveChunk | apps/server/src/host-agent.ts:201-204 | output goes to the live sink of its own request and re-arms its timer; otherwise nothing happens |
| Requests.HostAgent.ReceiveReply | apps/server/src/host-agent.ts:217-228 | a reply or error settles a waiting request; a late or repeated one changes nothing |
| Requests.HostAgent.FireTimer | apps/server/src/host-agent.ts:249-252 | the request is rejected and forgotten |
| Requests.HostAgent.Disconnect | apps/server/src/host-agent.ts:232-245 | everything waiting is rejected once, and both tables end empty |
| Requests.StepKeeps | apps/server/src/host-agent.ts:187-260 | every issued request is waiting or settled, never both and never twice; sinks belong to waiting streaming requests; timers are those of the waiting ones |
| Requests.TraceKeeps | apps/server/src/host-agent.ts:187-260 | over every run of sends, replies, duplicates, late replies, timeouts and disconnects |
| Requests.SettledIff | apps/server/src/host-agent.ts:187-260 | over every run: a request has settled iff an event after its issue could end it, and then as the first such event says: the reply's body (behind the output, for a stream), the remote error, the timeout, or the disconnect |
| Requests.PendingIs | apps/server/src/host-agent.ts:247-260 | the requests waiting are those issued and not ended since, each of the kind it was issued as |
| Requests.DisconnectSettlesAll | apps/server/src/host-agent.ts:232-245 | after a disconnect every request ever issued has settled exactly once and nothing is left in either table |
| Requests.SinksHear | apps/server/src/host-agent.ts:399-403 | a live sink holds exactly what arrived on its stream since the exec was sent |
| Requests.CompletedStreamReturnsChunks | apps/server/src/host-agent.ts:376-413 | a completed streaming exec returns each stream's chunks, concatenated in order |
| ExecLines.SplitResumes | apps/server/src/exec-lines.ts:27-30 | cutting a text into lines can be resumed from the incomplete last line alone |
| ExecLines.LineSplitter.OnChunk | apps/server/src/exec-lines.ts:26-34 | complete lines of this stream are logged in order and the rest held back; the other stream is untouched |
| ExecLines.LineSplitter.Finish | apps/server/src/exec-lines.ts:35-39 | what is left of a stream is logged only when it is not blank |
| ExecLines.BlankIff | apps/server/src/exec-lines.ts:35-39 | blank is what trimming leaves nothing of |
| ExecLines.LinesOfIs | apps/server/src/exec-lines.ts:26-39 | the logged lines joined again are the text, but for white space after its last newline |
| ExecLines.RunStreamingLines | apps/server/src/exec-lines.ts:16-41 | under every chunking and interleaving each stream's log is its whole text split on newlines, the last piece only when not blank, independent of the other stream |
| Throttle.StaysSane | apps/server/src/auth.ts:199-207 | a failure count never reaches the threshold |
| Throttle.CountArms | apps/server/src/auth.ts:199-207 | each cooldown takes a full set of failures, and no failure is checked before the last one armed has run out, however long a password check takes |
| Throttle.WindowBound | apps/server/src/auth.ts:179-207 | attempts in sequence, asked within a closed window of length T and recorded whenever their checks end, with no successful login among them: at most MAX_LOGIN_FAILURES * (T / LOGIN_BLOCK_MS + 1) failed checks for one key |
| Throttle.BoundIsMet | apps/server/src/auth.ts:179-207 | for every number of cooldowns some run of attempts meets that bound |
| Throttle.StormTimes | apps/server/src/auth.ts:199-207 | and it does so within a window of just that many cooldowns, every check instantaneous |
| Accounts.AuthStore.CreateUser | apps/server/src/auth.ts:489-516 | the first check that fails names the error and changes nothing; otherwise one account is added |
| Accounts.NormalizeIs | apps/server/src/auth.ts:549-557 | a name or address is normalized by taking the white space off both ends and making capitals small |
| Accounts.EmailShapeIff | apps/server/src/auth.ts:563-567 | an address has one at sign, something before it, no white space, and after it a dot that is neither first nor last |
| Accounts.AuthStore.SetupOwner | apps/server/src/auth.ts:170-177 | only an empty store gets an owner, signed in at once |
| Accounts.AuthStore.AddUser | apps/server/src/auth.ts:259-261 | adds an account that is not the owner |
| Accounts.AuthStore.Login | apps/server/src/auth.ts:179-196 | a key blocked when the call asks gets no password check; a failed check counts from the time it ends; success clears the count and issues a token |
| Accounts.AuthStore.Logout | apps/server/src/auth.ts:209-214 | that token is gone and no other |
| Accounts.AuthStore.DeleteUser | apps/server/src/auth.ts:265-279 | neither the owner nor the caller can be deleted; anyone else goes with all their sessions |
| Accounts.AuthStore.DeleteSessionsForUser | apps/server/src/auth.ts:451-463 | all sessions of the account go and every other stays |
| Accounts.AuthStore.SetEmail | apps/server/src/auth.ts:366-389 | an address another account holds is refused; one's own may be kept |
| Accounts.AuthStore.AdminSetPassword | apps/server/src/auth.ts:435-446 | a reset replaces the password and ends all of the account's sessions |
| Accounts.AuthStore.RevokeSession | apps/server/src/auth.ts:420-431 | one session of that account goes, never the caller's own |
| Accounts.AuthStore.Authenticate | apps/server/src/auth.ts:466-487 | a use within the TTL extends the session, a later one ends it |
| Accounts.LoginIsAttempt | apps/server/src/auth.ts:179-207 | a login is exactly one attempt at the throttle, and no other call touches the throttle |
| AccountLog.RunIsAttempts | apps/server/src/auth.ts:179-207 | so over a run of calls of every kind the table is what the throttle makes of its logins, and the logins turned down for their password are its failed checks |
| AccountLog.TraceThrottles | apps/server/src/auth.ts:179-207 | a key is barred iff a tenth failed login in a row on it lies less than a quarter of an hour back, with no login and no such tenth failure since |
| AccountLog.LoginsAreBounded | apps/server/src/auth.ts:179-207 | from every reachable store, in every run of calls whose logins fall in a closed window of length T and none of which logs in under one key, at most MAX_LOGIN_FAILURES * (T / LOGIN_BLOCK_MS + 1) are turned down for their password under it |
| AccountLog.SessionIs | apps/server/src/auth.ts:466-524 | the session computed call by call is the declarative one: issued, not ended since by a call that was answered, and no gap between uses over thirty days |
| AccountLog.UsersKept | apps/server/src/auth.ts:170-279 | no call makes a second owner, removes the only one, or repeats a username or an address |
| AccountLog.SessionsKept | apps/server/src/auth.ts:420-524 | after every call the session table is exactly what the log of calls and answers says |
| AccountLog.TraceKeeps | apps/server/src/auth.ts:170-279 | over every run of calls from an empty store: one owner, distinct names and addresses, and every account and session as the log has it |
| AccountLog.AuthenticateIff | apps/server/src/auth.ts:466-487 | a token authenticates iff it was issued, has not been logged out, revoked, or its account deleted or reset since, and no gap between its successive uses exceeds thirty days; it stands for the account it was issued to: the one set up, or the one that had the name logged in under |
| AccountLog.AnswerIs | apps/server/src/auth.ts:165-530 | every call of every run is answered exactly as the calls before it and their answers say: which names, passwords, addresses and ids are known, who the owner is, which sessions live, and which keys are barred |
| AccountLog.LogIsAnswered | apps/server/src/auth.ts:165-530 | so every entry of every log follows from the entries before it |
| AccountLog.LoginAnswerIs | apps/server/src/auth.ts:179-196 | an unbarred login succeeds iff some account not deleted since it was made has that name and was last given that password, when it was made or by a later reset that was done |
| AccountLog.AccountIs | apps/server/src/auth.ts:259-446 | an account's record is what the calls that made it and last gave it a password and an address say |
| AccountLog.AccountAnswerIs | apps/server/src/auth.ts:170-446 | setup, adding, deleting, addresses and resets, each refusal for its own reason |
| AccountLog.RevokeAnswerIs | apps/server/src/auth.ts:420-431 | a session is found iff a token for that account and of that id is alive, and refused iff it is the caller's own |
| ShellQuote.ShellCommandFor | apps/server/src/shell-quote.ts:28-42 | an empty argv is refused, a command results iff every env name is assignable, and a refusal names a bad one |
| ShellQuote.QuotedReads | apps/server/src/shell-quote.ts:13-15 | inside its quotes every value reads back character by character, quotes and newlines included |
| ShellQuote.AssignmentReads | apps/server/src/shell-quote.ts:33-38 | an env entry reads as one word: its name and `=` bare, its value quoted |
| ShellQuote.EnvNameIff | apps/server/src/shell-quote.ts:18-38 | the names let through are exactly those whose entry reads as one assignment to that name |
| ShellQuote.CommandReadsBack | apps/server/src/shell-quote.ts:28-42 | a POSIX tokenizer reads the command as an optional `cd`, its directory and `&&`, then the assignments, then the argv words, all of them quoted |
| ShellQuote.WordsMean | apps/server/src/shell-quote.ts:28-42 | exactly the env words are assignments, argv[0] never is, and quote removal gives every argument and value back unchanged |
| ShellQuote.OnlyOperator | apps/server/src/shell-quote.ts:28-42 | the only unquoted operator is the `&&` after a `cd` |
| IpText.ParseIp | apps/server/src/client-ip.ts:44-74 | accepts exactly four decimal octets, version 6 text, or a mapped form folded to four bytes, after trimming and one pair of brackets |
| IpGrammar.ParseIff | apps/server/src/client-ip.ts:38-127 | a text is read as an address iff a grammar says it is one, and as that one: four decimal numbers up to 255; the same behind `::ffff:`; eight hexadecimal groups, or fewer around one double colon; white space and a bracket at either end passed over |
| IpGrammar.OneUnpacking | apps/server/src/client-ip.ts:119-126 | two bytes to a group, the high one first |
| IpText.ParseIpv6 | apps/server/src/client-ip.ts:76-127 | at most one `::`, standing for at least one group; otherwise exactly eight groups; sixteen bytes |
| IpText.LongestRun | apps/server/src/client-ip.ts:236-253 | the scan ends with the leftmost longest run of zero groups |
| IpText.Format | apps/server/src/client-ip.ts:227-260 | prints the canonical text: only the leftmost longest run of at least two zero groups is collapsed (section 4.2 of RFC 5952) |
| IpText.CanonicalIsUnique | apps/server/src/client-ip.ts:220-260 | an address has one canonical text |
| Numerals.ShowIs | apps/server/src/client-ip.ts:255 | group and octet texts are lower case, without leading zeros, of bounded width, and read back as the number |
| IpText.RoundTrip | apps/server/src/client-ip.ts:44-127 | reading the canonical text of any 4- or 16-byte address gives that address |
| IpText.MappedFolds | apps/server/src/client-ip.ts:38-54 | the dotted IPv4-mapped form of an address reads as its four bytes |
| ClientIp.InCidr | apps/server/src/client-ip.ts:181-197 | agrees with comparing both addresses as big-endian integers divided by 2^(width - bits) |
| ClientIp.BitsAreNumbers | apps/server/src/client-ip.ts:185-196 | comparing whole bytes and then the top of one more is that comparison, for every prefix length |
| ClientIp.CoversIff | apps/server/src/client-ip.ts:181-197 | an entry covers an address iff both are of one family and alike in that many leading bits, bit by bit |
| ClientIp.MaskedHigh | apps/server/src/client-ip.ts:195-196 | masking with `0xff << (8 - rest)` keeps exactly the leading bits |
| ClientIp.MatchTrusted | apps/server/src/client-ip.ts:200-209 | the first covering entry, and none only when no entry covers |
| ClientIp.AttributedIs | apps/server/src/client-ip.ts:334-343 | the answer is the rightmost entry that parses and is not a trusted proxy, and there is none only when every entry is unreadable or trusted |
| ClientIp.ResolveClientIp | apps/server/src/client-ip.ts:321-345 | the chain counts only behind a trusted peer; without an answer in it the peer is recorded, in canonical text when it parses |
| ClientIp.UntrustedHasNoSay | apps/server/src/client-ip.ts:328-332 | a peer that shares no trusted entry's leading bits is recorded as itself, whatever it forwards |
| ClientIp.TrustedIsHeard | apps/server/src/client-ip.ts:334-344 | behind a trusted peer the answer is the rightmost entry that is readable and not a trusted proxy, and the peer only when there is none |
| ClientIp.PrependChangesNothing | apps/server/src/client-ip.ts:334-343 | entries further left have a say only when none to the right was found |
| ClientIp.SpoofingChangesNothing | apps/server/src/client-ip.ts:310-345 | so putting any entries in front never changes an answer found in the chain |
| Permissions.MatchesIsAnOrder | shared/src/permissions.ts:502-510 | matching is a partial order, on all strings, with `*` on top |
| Permissions.MatchesIff | shared/src/permissions.ts:502-510 | on all strings: equal, the star, or a wildcard and any continuation of its base and dot |
| Permissions.WildcardReaches | shared/src/permissions.ts:502-510 | a wildcard matches exactly the nodes whose segments start with its base's and go on, at any depth |
| Permissions.HasPermissionIff | shared/src/permissions.ts:502-523 | a node is allowed iff it is held by name or, unless it is sensitive, the star is held or a wildcard on a node above it |
| Permissions.OverlapIsSharing | shared/src/permissions.ts:541-543 | two valid patterns overlap iff some concrete node is matched by both |
| Permissions.NestedOrDisjoint | shared/src/permissions.ts:541-543 | so what two patterns grant is nested or disjoint |
| Permissions.Inhabited | shared/src/permissions.ts:562-564 | every valid pattern matches some concrete node |
| Permissions.ConcreteIff | shared/src/permissions.ts:562-564 | concrete nodes, character by character: letters, digits and dots, a letter first and after every dot |
| Permissions.ValidIff | shared/src/permissions.ts:562-564 | valid patterns are the star, the concrete nodes, and those followed by a dot and a star |
| Permissions.HoldingIsMonotone | shared/src/permissions.ts:518-523 | holding more nodes, or wider patterns for ordinary ones, loses nothing |
| Permissions.SensitiveIsExact | shared/src/permissions.ts:519-521 | a sensitive node depends only on being listed itself |
| Permissions.GateIsSharing | shared/src/permissions.ts:550-557 | the proxy gate opens iff it names nothing, or names a sensitive node that is itself held, or some concrete node is both held and asked for by an ordinary pattern |
| Permissions.GatesAgree | shared/src/permissions.ts:541-557 | on a concrete node the proxy gate and the operation gate agree |
| Permissions.EffectivePermissions | shared/src/permissions.ts:753-774 | every grant of the roles and ad-hoc list once and no other; the owner's roles give way to `*` |
| Permissions.RolesUnion | shared/src/permissions.ts:753-774 | an account may do what one of its roles or its ad-hoc grants allows, and nothing else |
| Percent.ComponentRoundTrip | apps/web/src/routes.ts:126-128 | decoding an encoded component gives every octet string back (section 2.1 of RFC 3986) |
| Percent.QueryRoundTrip | apps/web/src/routes.ts:162-172 | the query decoder undoes both its own encoder and the component encoder |
| Percent.EncodedText | apps/web/src/routes.ts:126-190 | encoded text holds none of the hash's delimiters and is empty only for empty text |
| Percent.EncodeOctetIs | apps/web/src/routes.ts:126-172 | what each octet becomes, by the tables of the two encoders |
| Routes.HashShape | apps/web/src/routes.ts:131-190 | every server hash is a list of segments and a query, put together in one way |
| Routes.HashReads | apps/web/src/routes.ts:193-212 | those segments and that query are what the reader cuts it into |
| Routes.ContainerQueryReads | apps/web/src/routes.ts:236-241 | stack and filter come back from the query string, in every combination |
| Routes.ReadsNormalized | apps/web/src/routes.ts:131-254 | reading any written route gives it with defaults filled in, paths canonical, and empty or out-of-place fields dropped |
| Routes.NormalIsFixed | apps/web/src/routes.ts:25-56 | the routes this leaves alone are exactly those with the fields their tab and section allow |
| Routes.RoundTripIff | apps/web/src/routes.ts:131-254 | a route survives the trip through a hash if and only if it is in normal form |
| Routes.AnyServerHash | apps/web/src/routes.ts:212-251 | any server hash, written by the program or not, is read segment by segment, with the default wherever one is missing or names nothing |
| Routes.ShortHashes | apps/web/src/routes.ts:212-251 | the bare hash of a server is its overview; a tab's own hash is that tab at its defaults |
| Routes.NameHash | apps/web/src/routes.ts:193-211 | a hash of one segment is the view of that name, and the dashboard for any other, `server` included |
| Routes.MarkIsOptional | apps/web/src/routes.ts:193-194 | one hash mark in front is passed over, and is not needed |
| Routes.VolumeRootIsDropped | apps/web/src/routes.ts:174-186 | an input that does not survive: a volume's root folder reads back as no path at all |

## Left out

Assumptions the model makes where the code relies on its surroundings:

- One chunk per upload is in flight, and account calls do not overlap: the code does not serialize either.
- AgentUploads.Agent.Append: a write that throws may have written any prefix, but a successful write is complete, and the final close and rename succeed. If they failed, the map entry would be gone and the temp file would stay.
- AgentUploads.RunIsSafe: a temp name drawn for an upload is no upload's target, and `AgentUploads.Clean` asks that a chunk that starts an upload is not aimed at a live temp file. What an open handle still sees of a file that another upload has replaced is not followed.
- UploadPipeline.UploadOne: what reaches the server of a request is a prefix of it, which is what the transport ensures; that prefix is read and forwarded before the next request starts, and an entry that expires between two requests is an event of `AgentUploads.Run`.
- UploadFile.UploadFile: an abort that does not arrive leaves the upload's entry to its idle timer, which is an event of `AgentUploads.Run` and not of this method; the fallback for agents without chunked upload is not modelled.
- Run ids, account ids, tokens, session ids and request ids are fresh when drawn.
- UploadPipeline.HandleUpload: the part's chunks are drawn before they are forwarded, where the source alternates the two; drawing does not touch the host.
- RpcMultipart.ParseRpcMultipart: takes the boundary off the content type already (`multipartBoundary`); JSON, including a missing or malformed `fields` or `binary`, is the decoder's business, declared sizes are whole numbers, and cancelling a part's stream half-way is not modelled.
- PartHeader.NameRoundTrip: header blocks are ASCII, on which UTF-8 decoding is the identity.
- ControlPlane.StepKeeps: the asynchronous bodies of `execute` and `updateControlPlane` are steps of a machine rather than methods; the download, the pruning of old binaries and the platform checks are the points at which `Throw` can happen. A save that fails ends its execution there, as the rejected promise does. The file's own temp-and-rename write is atomic.
- BatchRename.Rename: a rename whose reply is lost is carried out before the next one starts, or not at all; one that is carried out later still is not modelled.
- BatchRename.Plan: targets are arbitrary strings, and how a pattern is expanded into them (`splitExt`, `expand`, `splitParts`) is not modelled.
- Fleet.Fleet.Deregister: the embedded agent has no socket to lose, so it is never deregistered.
- Fleet.Fleet.Entries: the order in which machines are listed is arbitrary; names, host info and status details are not modelled.
- Requests.HostAgent.Disconnect: the order in which requests are rejected is arbitrary; shells, metrics history and a throwing `sendControl` are not modelled.
- Throttle.WindowBound: attempts follow one another. Logins whose password checks overlap have all asked before the first failure is recorded, and this bound says nothing about those.
- Accounts.AuthStore.Login: the password hash stands for a check of the password itself, and lower-casing is that of ASCII.
- Accounts.AuthStore.SetEmail: `users` is a map here and a plain object in the source, where an id that names an inherited property, such as `__proto__`, is found although no account has it; an address stored under that id is read as every account's that has none of its own. No property here covers calls with such ids, neither this one nor `AccountLog.UsersKept` and `AccountLog.TraceKeeps`.
- AccountLog.UsersKept: account ids that name an inherited property of objects are not modelled (see `Accounts.AuthStore.SetEmail`).
- AccountLog.TraceKeeps: the same.
- AccountLog.AnswerIs: the clock never reads a time before 1970.
- Accounts.AuthStore.AddUser: is only called once an account exists, which its dispatcher's permission check ensures; roles, ad-hoc permissions, system users, the pruning of expired sessions at start and the persisted files are not modelled.
- ShellQuote.CommandReadsBack: the `nohup` variant of the command is not modelled.
- IpText.ParseIp: hexadecimal text of an IPv4-mapped address is a 16-byte address and is not folded, as in the source.
- ClientIp.ResolveClientIp: takes ranges and forwarded chains already parsed; the syntax of ranges, of the RFC 7239 header and of ports, and the per-proxy header choice, are not modelled.
- Permissions.HoldingIsMonotone: the registry is a parameter, namely its set of sensitive nodes.
- Routes.RoundTripIff: text stands for its UTF-8 octets, one character each; that decoding refuses escapes which are not UTF-8 is not modelled.

Not modelled at all, because it is foreign or would only add easy members: rendering and hooks, sockets and TLS,
process and terminal handling, STUN, systemd, the permission registry's contents, CORS, metrics parsing, feature
composition, configuration getters and setters, log reordering and colouring.
