# Focal: a model and proofs of its durable and consensus core

Focal keeps ledgers on Raft groups. A client that asks for a change must be able to ask again after a
lost reply or a crash without asking for something else, and a node must be able to compact, convert,
reopen and reconfigure its groups without changing what they mean. This project models the code that
carries those promises and proves them over every input and every run.

Files are atomic durable writes. A call is given as the writes it makes, in order, and its answer; a
crash stops it after any of them. A run is any calls in any order, each completed or stopped. Hashes,
encodings, the clock, randomness and the network are values or functions the model is given, so every
theorem holds for all of them.

| files | what they model |
|---|---|
| `CallGraph`, `Components` | the cycles of a call graph by Tarjan's algorithm with explicit stacks |
| `NativeModel`, `NativeCalls`, `NativeSafety`, `NativeRuns`, `NativeTheorems`, `NativeLate`, `NativeWitness`, `NativeExact`, `NativeAnswers`, `NativeStore` | the native operation journal |
| `ConvertModel`, `ConvertCopy`, `ConvertRuns` | conversion of a data directory from the old log to the new |
| `UploadModel`, `UploadRuns`, `UploadAnswers`, `UploadJournal` | the client's upload journal |
| `ManagedModel`, `ManagedSafety`, `ManagedCalls`, `ManagedRuns`, `ManagedTheorems`, `ManagedAcknowledge`, `ManagedControls`, `ManagedAnswers`, `ManagedCut`, `ManagedStore` | a managed stream's store |
| `CheckpointModel`, `CheckpointReplay`, `CheckpointRuns`, `CheckpointSteps`, `CheckpointState`, `CheckpointConf`, `CheckpointMeaning`, `CheckpointTheorems`, `CheckpointPaths`, `CheckpointWitness`, `CheckpointUnhanded`, `CheckpointProgress`, `CheckpointReplica` | a replica's openings, drains and checkpoints |
| `ClientBudget`, `ClientRoutes`, `ClientRetry` | the client's resend budget, route cache and retry loop |
| `Decoder`, `DecoderRuns`, `DecoderAnswers`, `DecoderOwner` | a group's decoder gate and its records |
| `Membership`, `TermStart` | configuration changes and quorums; where a term began |

In each component the modules build from data and single operations, through what every write keeps, to
theorems over whole runs. Where the code works in place, a class (`NativeStore`, `UploadJournal`,
`ManagedStore`, `CheckpointReplica`, `DecoderOwner`, `Conversion`, `LogWriter`, `ComponentSearch`,
`Routes`, `RetryBudget`) changes its fields as the code does. Each method is proved to make exactly the
step the model states, to keep the invariant every run keeps, and to answer and leave exactly what the
predicate named `...Gives` says: when it succeeds and with what, what it is refused with otherwise, and
what is then in the files. These predicates are written over what the files hold, not over the steps the
calls take.

## Where the code is not what its words say

Each of these has a concrete input or run on which the words fail, and the exact condition under which
they hold.

- A sweep at opening lists at most 4096 directories, so a journal with more can keep directories of
  identities that are not live. `NativeWitness.SweepLeavesOne` is a run from a new journal to 4097
  directories and an opening that leaves one; `NativeTheorems.SweepExactWhen` is the exact condition.
- An operation is to retire only once its result was reported, and a commit can retire though it was never
  delivered: recording it does not take back the report of a refusal that closed the frame before.
  `NativeWitness.UndeliveredRetired` is such a run from a new journal. `NativeLate.LateExactlyWhenClosed`
  is the exact condition: an undelivered commit may retire if and only if a refusal had closed its frame
  earlier in the same life.
- A group that was opened and never written leaves nothing in the new log, so a conversion's own
  verification refuses it for good (`ConvertCopy.BlankGroupRefused`). `ConvertCopy.CopyVerifiesWhen` is the
  exact condition.
- Verification says the new log holds every group and nothing else. It counts the log's groups, so with a
  group that was never written a foreign one can stand in its place (`ConvertCopy.AnotherAccepted`);
  `ConvertCopy.AcceptedIsExactWhen` is the exact condition. The group files are never counted, so files of
  any other group are accepted (`ConvertCopy.FilesAreNotCounted`).
- `Converted.entry_bytes` is documented as data and context. The code counts each entry's overhead too, so
  the two are equal exactly when there are no entries (`ConvertCopy.ChargeIs`,
  `ConvertCopy.ChargedBeyondData`).
- A receipt is reported corrupt if its recording was cut before it marked the entry and the entry was never
  marked prepared either, nor sealed; for a prepared entry it reads back. `ManagedCut.UnreadableFromCreation`
  is such a run from a new store, `ManagedCut.CutRecordingUnreadable` makes one for every operation just
  issued, and `ManagedTheorems.ReceiptReadableWhen` is the exact condition.
- A checkpoint's point is to name the configuration applied through its entry. A drain applies a change at
  once and moves what was delivered only when it hands over, and between the two it may wait for a write; a
  point asked for then pairs the delivered entry with the later configuration, and is accepted once the drain
  is done. `CheckpointWitness.MidDrainPointClosesForGood` is such a run from a new replica: opening applies the
  committed entries over the image's configuration, the next change is refused there, and the replica never
  opens again.
- A point is also to be of the prefix the owner captures its state with. Opening moves what was delivered and
  keeps what it gathered for the first drain, which `persistence_pending` does not count, so until that drain
  hands over a point names an entry the application was not given, and is accepted.
  `CheckpointUnhanded.UnhandedPointRestoresAnother` is such a run from a new replica, with no drain and no
  checkpoint under way when the point is asked for: what it leaves restores a state that is not the history's.
  For both, `CheckpointConf.PointFitsExactly` is the exact condition for a point: nothing is owed to the application and
  the configuration has not moved. `CheckpointState.StepKeepsState` and `CheckpointConf.StepKeepsConf` are it
  for every step, `CheckpointMeaning.CheckpointExactly` for what the checkpoint restores, and
  `CheckpointTheorems.EitherSideOpens` is when the replica opens. Every point fits that is asked for with no
  drain under way, as the fleet waits for (crates/focal-node/src/fleet.rs:2459), by an owner that was given
  what was delivered, as it checks (crates/focal-ledger/src/cursor_session.rs:882):
  `CheckpointTheorems.QuietIsGuarded`. Neither is enough alone.
- The retry loop's closing comment says a refusal is reported only when every attempt was refused without
  effect. `ClientRetry.UnreadReportedAsRefusal` is a run where it is not. A send under way when no deadline
  can be kept any more is likewise reported as a plain transport failure, though the wait polls the send
  before its timer (`ClientRetry.AbandonedReportedAsFailure`). `ClientRetry.Send` gives the exact condition
  under which a mutation is reported decided with something sent left open.
- A mutation once in doubt is not always reported as unknown: a native refusal that comes after the doubt
  is given to the caller as the outcome (`ClientRetry.DoubtEndsInNativeRefusal`), exactly when it came last
  (`ClientRetry.Send`).
- Two fast quorums are documented to share more than half of the members. They do exactly when the number
  of members is no multiple of four (`Membership.FastMeetsFast`, `Membership.FastMeetsFastInHalf`).

## Model

| member | source | states |
|---|---|---|
| `Components.FindCycles` | scripts/check_recursion.py:422-466 | for every graph, each list returned is a strongly connected component without repeats, every function on a cycle is in one, nothing else is, and no function is in two |
| `Components.ComponentSearch.SearchFrom` | scripts/check_recursion.py:434-465 | a root's whole search keeps the invariant of numbers, low-links and both stacks, ends with no work left and the root numbered |
| `Components.ComponentSearch.Turn` | scripts/check_recursion.py:439-456 | one turn of the loop keeps that invariant and makes progress: a vertex is numbered, a call is used up or a frame leaves |
| `Components.ComponentSearch.TakeComponent` | scripts/check_recursion.py:457-465 | taking a root's component off the stack, listed exactly when it is a cycle, keeps that invariant |
| `Components.PopThrough` | scripts/check_recursion.py:458-463 | popping takes exactly what stands from the vertex up, top first |
| `Components.EnterCallee` | scripts/check_recursion.py:443-448 | meeting a callee for the first time keeps the invariant, callees absent from the map included |
| `Components.LookAgain` | scripts/check_recursion.py:449-451 | meeting a callee again lowers the caller's low-link exactly while the callee is on the stack |
| `Components.FinishMember` | scripts/check_recursion.py:452-456 | a vertex whose low-link is below its number joins its caller's segment |
| `Components.FinishRoot` | scripts/check_recursion.py:456-465 | a vertex whose low-link is its number leaves with everything above it |
| `Components.TopIsComponent` | scripts/check_recursion.py:456-463 | what stands above such a root is exactly the functions it reaches and that reach it |
| `CallGraph.CycleIffComponentCyclic` | scripts/check_recursion.py:464-465 | a function is on a cycle exactly when its component has another member or it calls itself |
| `NativeTheorems.RunsKeepInv` | crates/focal-client/src/native_store.rs:397-427 | every state of every run with crashes keeps the catalogue's and files' invariant |
| `NativeTheorems.AnswersShowFiles` | crates/focal-client/src/native_store.rs:718-945 | an operation is answered only as its files then hold it, live and ready |
| `NativeTheorems.ExactRetry` | crates/focal-client/src/native_store.rs:718-996 | two operations answered for one identity, any calls and crashes apart, carry the same request while it is live or in the retired table |
| `NativeExact.AnswersAgain` | crates/focal-client/src/native_store.rs:718-899 | once a preparation answered, every later preparation of that identity with the same context and intent writes nothing and answers the same operation, through any calls and crashes, as long as the identity is live |
| `NativeExact.PreparedAgain` | crates/focal-client/src/native_store.rs:871-899 | preparing a ready identity again with its context and intent writes nothing and answers the operation its files hold |
| `NativeExact.FreshAnswersWhen` | crates/focal-client/src/native_store.rs:766-899 | a preparation of a fresh identity answers if and only if there is room or some can be made, there is a generation to issue it in and the compiler answers a request of that identity, and then that request, made ready |
| `NativeExact.PrepareExactly` | crates/focal-client/src/native_store.rs:718-899 | what every preparation answers and leaves, in every state that meets the invariant |
| `NativeExact.MintExactly` | crates/focal-client/src/native_store.rs:730-749 | an identity is minted exactly if a free one is drawn within the attempts, and it is the first such draw |
| `NativeExact.RoomExactly` | crates/focal-client/src/native_store.rs:766-792 | room is there, or is made by retiring exactly the identity reported longest ago with its result, or is refused with nothing changed |
| `NativeAnswers.LoadExactly` | crates/focal-client/src/native_store.rs:948-996 | which identities are read for a context, and what every other is refused with |
| `NativeTheorems.RunKeepsFrame` | crates/focal-client/src/native_store.rs:718-899 | from any moment on an identity that stays guarded is no other frame's |
| `NativeTheorems.ReceiptForGood` | crates/focal-client/src/native_store.rs:1057-1183 | a recorded receipt never changes, and an identity that retires with it is committed with its digest and sequence |
| `NativeTheorems.ReportedByCall` | crates/focal-client/src/native_store.rs:1037-1053 | an identity is retirable only after an earlier event of the run reported a result for it and wrote that report |
| `NativeTheorems.RetiresLongestReported` | crates/focal-client/src/native_store.rs:436-442 | an identity that retires was live, had a result, was the one reported longest ago, and an earlier event wrote that report |
| `NativeTheorems.LateCommitStaysRetirable` | crates/focal-client/src/native_store.rs:1057-1103 | recording a commit leaves it undelivered and the identity exactly as retirable as before |
| `NativeLate.LateExactlyWhenClosed` | crates/focal-client/src/native_store.rs:1037-1183 | over every run from a new journal, a live undelivered commit is retirable if and only if at an earlier moment of the same life a reported refusal had closed its frame |
| `NativeLate.UndeliveredRetiresOnlyClosed` | crates/focal-client/src/native_store.rs:436-475 | so an event of any run that retires an undelivered commit was preceded by such a refusal |
| `NativeLate.ClosedIsRetired` | crates/focal-client/src/native_store.rs:766-792 | and one so closed, reported longest ago in a full journal, is what the next claim retires, as a commit |
| `NativeWitness.UndeliveredRetired` | crates/focal-client/src/native_store.rs:1057-1183 | a run from a new journal that retires a commit never delivered |
| `NativeTheorems.ReadyOnlyRetires` | crates/focal-client/src/native_store.rs:445-475 | every write leaves a ready identity ready or in the retired table |
| `NativeLate.ReadyLeavesByRetiring` | crates/focal-client/src/native_store.rs:445-475 | over any run a ready identity that is no longer live and ready went into the retired table in the event in which it left |
| `NativeSafety.EvictedNewest` | crates/focal-client/src/native_store.rs:463-473 | eviction leaves exactly as many as fit, and each identity kept comes after each one evicted |
| `NativeTheorems.OpenSweeps` | crates/focal-client/src/native_store.rs:636-681 | after opening, live entries are exactly the ready ones, each with its frame, and with at most 4096 directories no other directory is left |
| `NativeTheorems.SweepExactWhen` | crates/focal-client/src/native_store.rs:653-681 | nothing else is left after opening, whatever the listing's order, if and only if there are at most 4096 directories or all are ready |
| `NativeWitness.SweepLeavesOne` | crates/focal-client/src/native_store.rs:653-681 | a run from a new journal leaves 4097 directories, and opening it with some listing leaves one nothing live owns |
| `NativeTheorems.GenerationsOnlyAdvance` | crates/focal-client/src/native_store.rs:797-820 | over every run floor and generation never decrease and generation is floor or one above |
| `NativeTheorems.FreshClaimsWhileDraining` | crates/focal-client/src/native_store.rs:797-820 | while the floor is behind, every fresh claim is issued in the current generation |
| `NativeTheorems.EpochKept` | crates/focal-client/src/native_store.rs:397-427 | a live identity keeps its epoch, which lies between one and the generation and is its frame's |
| `NativeTheorems.FloorDueWhen` | crates/focal-client/src/native_store.rs:1188-1203 | an advance is due exactly when the floor is behind and every older identity is delivered |
| `NativeTheorems.AdvanceMovesFloor` | crates/focal-client/src/native_store.rs:1057-1103 | a committed advance leaves the floor at its generation or past it |
| `NativeSafety.WriteKeepsInv` | crates/focal-client/src/native_store.rs:397-475 | every durable write a call may make keeps the invariant |
| `NativeSafety.WriteKeepsFrame` | crates/focal-client/src/native_store.rs:837-874 | every such write leaves a frame its identity's only frame |
| `NativeSafety.WriteKeepsReceipt` | crates/focal-client/src/native_store.rs:997-1103 | every such write leaves a recorded receipt |
| `NativeRuns.CallAllowed` | crates/focal-client/src/native_store.rs:718-1235 | each call, stopped after any write, makes only such writes, claims no guarded identity and reports only its own |
| `NativeStore.NativeOperationStore.Prepare` | crates/focal-client/src/native_store.rs:718-899 | the writes in order and the answer of the model; the invariant is kept; for each identity, asked for or drawn, live, claimed, retired or fresh, exactly when it answers and with which operation, what it is refused with otherwise, and the files it leaves |
| `NativeStore.NativeOperationStore.Existing` | crates/focal-client/src/native_store.rs:907-945 | exactly when it answers, with the operation the files hold; absent for an identity that is neither ready nor retired; and what every other is refused with |
| `NativeStore.NativeOperationStore.Retry` | crates/focal-client/src/native_store.rs:948-996 | answers exactly for a live, ready identity of that context, with the operation its files hold, and what every other is refused with |
| `NativeStore.NativeOperationStore.RecordReply` | crates/focal-client/src/native_store.rs:1057-1103 | the model's writes in order; the invariant is kept; exactly which reply is recorded, as the identity's receipt with the floor moved where it names one, which was recorded before, and what every other is refused with |
| `NativeStore.NativeOperationStore.RecordDelivered` | crates/focal-client/src/native_store.rs:1110-1145 | the model's writes in order; the invariant is kept; exactly when a delivery is recorded, what it leaves marked and reported, and what is refused |
| `NativeStore.NativeOperationStore.RecordRefusal` | crates/focal-client/src/native_store.rs:1151-1183 | the model's writes in order; the invariant is kept; exactly when a refusal is recorded, that one which closes leaves the identity reported, and what is refused |
| `NativeStore.NativeOperationStore.FloorDue` | crates/focal-client/src/native_store.rs:1188-1203 | asks for the generation exactly when it is ahead of the floor and everything of an earlier one is ready and reported, deciding by the first identity that is not |
| `NativeStore.NativeOperationStore.ObserveWindow` | crates/focal-client/src/native_store.rs:1207-1235 | the model's write; the invariant is kept; exactly the floor and generation it leaves, with the count issued begun anew where the generation moved, and which windows are refused |
| `NativeStore.NativeOperationStore.Open` | crates/focal-client/src/native_store.rs:636-681 | the sweep's loop leaves exactly the ready operations, each with its frame, and of other directories only such as the listing did not reach; the invariant is kept |
| `NativeStore.NativeOperationStore.MakeRoom` | crates/focal-client/src/native_store.rs:766-792 | room is made by retiring the longest reported, or refused |
| `NativeStore.NativeOperationStore.Evict` | crates/focal-client/src/native_store.rs:463-473 | the eviction loop leaves as many as fit, unchanged, and every identity it leaves is of greater order than every one it evicts, or of the same order and a greater identity |
| `NativeStore.NativeOperationStore.Draw` | crates/focal-client/src/native_store.rs:730-749 | at most sixteen draws; an identity is minted exactly if a free one is drawn in time, and it is the first |
| `NativeModel.FindLeast` | crates/focal-client/src/native_store.rs:436-442 | the least by order and then identity, or none of none |
| `ConvertCopy.NextChunk` | crates/focal-consensus/src/convert.rs:356-372 | a chunk holds as many entries as the frame takes and one at least, and an entry too large is found |
| `ConvertModel.StartedKeepsTail` | vendor/hyper-log/src/group.rs:157-178 | a start moved forward keeps every entry past it, in place, and nothing before |
| `ConvertCopy.LogWriter.CopyEntries` | crates/focal-consensus/src/convert.rs:352-401 | both slices of the deque are laid in order, exactly when every entry fits |
| `ConvertCopy.LogWriter.CopyLog` | crates/focal-consensus/src/convert.rs:345-415 | the writes concatenate to the group's entries, the start on the first write alone and the hard state last; nothing is written exactly for a blank group |
| `ConvertCopy.WriteNew` | crates/focal-consensus/src/convert.rs:300-418 | a group moves exactly when it is not on the fast track, its image fits its file and each of its entries a frame, and its home then holds its records, image and log and no other group is touched; otherwise the error, and exactly what of the group is left |
| `ConvertCopy.CopyGroups` | crates/focal-consensus/src/convert.rs:422-437 | the copy succeeds exactly when every group moves and is then the faithful store; it reports every group, every entry, their data and context with each entry's overhead, and the images' bytes |
| `ConvertCopy.ChargeIs` | crates/focal-consensus/src/convert.rs:288-295 | entries are charged their data and context and each one's overhead, which is data and context alone if and only if there are none |
| `ConvertCopy.ChargedBeyondData` | crates/focal-consensus/src/convert.rs:396-398 | one entry of one byte is reported as six |
| `ConvertCopy.VerifyGroup` | crates/focal-consensus/src/convert.rs:440-516 | the paged comparison accepts a home if and only if it is equal in records, image, bounds, hard state and every entry |
| `ConvertCopy.Verify` | crates/focal-consensus/src/convert.rs:520-544 | verification accepts exactly stores where every group is copied and the new log holds as many groups |
| `ConvertCopy.CopyVerifiesWhen` | crates/focal-consensus/src/convert.rs:520-544 | the faithful copy verifies if and only if no group is blank |
| `ConvertCopy.BlankGroupRefused` | crates/focal-consensus/src/convert.rs:520-544 | a group with records alone moves and then fails verification |
| `ConvertCopy.AcceptedIsExactWhen` | crates/focal-consensus/src/convert.rs:518-544 | every accepted store's log holds exactly the old log's groups if and only if no group is blank |
| `ConvertCopy.BlankAdmitsAnother` | crates/focal-consensus/src/convert.rs:536-543 | with a blank group there is an accepted store whose log holds another group in its place |
| `ConvertCopy.AnotherAccepted` | crates/focal-consensus/src/convert.rs:536-543 | one such store, of one blank group and one foreign |
| `ConvertCopy.FilesAreNotCounted` | crates/focal-consensus/src/convert.rs:518-544 | an accepted store is accepted with any other group's files beside it |
| `ConvertRuns.RunsKeepInv` | crates/focal-consensus/src/convert.rs:657-743 | over any run of steps and crashes the directory holds the old log or a verified copy, and once committed it stays so |
| `ConvertRuns.StartAnswers` | crates/focal-consensus/src/convert.rs:761-800 | each answer of start, both directions: shell exactly on a committed verified copy, old log exactly with no `raft/` and the fence shut |
| `ConvertRuns.StartAfterAnyRun` | crates/focal-consensus/src/convert.rs:761-800 | after any run shell means a verified copy and the old log means it is whole and no `raft/` exists |
| `ConvertRuns.Conversion.ConvertDataDir` | crates/focal-consensus/src/convert.rs:657-743 | from any state a crash left an attempt succeeds exactly when committed already or convertible, converges to the committed faithful copy and reports what it copied and moved, and otherwise leaves the old log |
| `UploadRuns.RunsExtend` | crates/focal-client/src/artifact_transfer.rs:127-193 | over every run with crashes the state stays valid, the staged prefix only grows, and references and bindings stay |
| `UploadRuns.RunExtendsFrom` | crates/focal-client/src/artifact_transfer.rs:346-397 | the same between any two moments of a run |
| `UploadRuns.CreatedUpload` | crates/focal-client/src/artifact_transfer.rs:208-252 | from its making through any run an upload is of the length and digest it was made for, and once referenced its bytes have them |
| `UploadRuns.ReferenceProvesContent` | crates/focal-client/src/artifact_transfer.rs:457-501 | a reference is recorded only once all bytes were staged, match the digest and were received |
| `UploadRuns.StageIs` | crates/focal-client/src/artifact_transfer.rs:346-397 | staging writes the payload at the end and then the state that accepts it, and never one it would refuse |
| `UploadRuns.NextIsValid` | crates/focal-client/src/artifact_transfer.rs:401-453 | the next piece of work is one the saved state admits |
| `UploadRuns.AnswerIsValid` | crates/focal-client/src/artifact_transfer.rs:457-501 | a reply that is taken leaves a state the journal would save |
| `UploadRuns.AppendCarriesStaged` | crates/focal-client/src/artifact_transfer.rs:401-453 | an append carries exactly the staged bytes at its offset |
| `UploadRuns.AppendCarriesFinal` | crates/focal-client/src/artifact_transfer.rs:401-453 | and those are the bytes there at every later moment |
| `UploadRuns.ExactRequest` | crates/focal-client/src/artifact_transfer.rs:401-501 | the pending request asked again is identical through staging, crashes, reopening and replies refused or cut off, until a reply to it is recorded or a cancellation is |
| `UploadRuns.StepKeepsOwed` | crates/focal-client/src/artifact_transfer.rs:401-516 | what is owed stays owed after an event if and only if the event did not write a reply to it or a cancellation |
| `UploadRuns.RequestStable` | crates/focal-client/src/artifact_transfer.rs:517-537 | pending work is one envelope however much is staged after it |
| `UploadRuns.OpenKeeps` | crates/focal-client/src/artifact_transfer.rs:253-284 | a transfer opens, and drops exactly what was never accepted |
| `UploadAnswers.AskExactly` | crates/focal-client/src/artifact_transfer.rs:401-453 | which work comes next in every state that meets the invariant, the request it is sent as, and when there is none |
| `UploadAnswers.ReplyExactly` | crates/focal-client/src/artifact_transfer.rs:457-501 | which replies are taken and what each leaves; any other leaves the transfer as the asking left it |
| `UploadAnswers.StageExactly` | crates/focal-client/src/artifact_transfer.rs:346-397 | which bytes are accepted and what they make of the transfer |
| `UploadAnswers.OpenExactly` | crates/focal-client/src/artifact_transfer.rs:253-284 | a transfer opens with exactly its staged bytes |
| `UploadAnswers.CreateExactly` | crates/focal-client/src/artifact_transfer.rs:208-252 | when a transfer is made, and what it then is |
| `UploadAnswers.Finishes` | crates/focal-client/src/artifact_transfer.rs:401-501 | whatever a transfer went through, once all its bytes are staged and unless it is cancelled, replies that do what is asked bring it to its reference |
| `UploadJournal.Journal.Stage` | crates/focal-client/src/artifact_transfer.rs:346-397 | the model's writes, or a prefix and nothing until reopened; the transfer is kept; exactly which bytes are taken, where and with what hash, which repeat staged ones, and what others are refused with |
| `UploadJournal.Journal.NextRequest` | crates/focal-client/src/artifact_transfer.rs:401-453 | the model's writes and answer, or a prefix; the transfer is kept; with nothing pending it answers none exactly when a cancellation was acknowledged, or when what was staged is received and more is to be staged, and otherwise the cancellation, the begin, the append of the next chunk or the seal, each under its own condition; a request already owed is answered again |
| `UploadJournal.Journal.RecordReply` | crates/focal-client/src/artifact_transfer.rs:457-501 | the model's writes and answer, or a prefix; the transfer is kept; exactly which replies to the request asked for are taken and the state each leaves, and an owed request stays owed exactly if the reply was not taken |
| `UploadJournal.Journal.Cancel` | crates/focal-client/src/artifact_transfer.rs:506-516 | the model's writes and answer, or a prefix; the transfer is kept, it is asked for once and once more after it was acknowledged, and the next work is the cancellation |
| `UploadJournal.Journal.BindIntent` | crates/focal-client/src/artifact_transfer.rs:316-339 | the model's writes and answer, or a prefix; the transfer is kept; exactly when these bytes are bound, and what is refused otherwise |
| `ManagedTheorems.IssuesInOrder` | crates/focal-client/src/managed_store.rs:450-487 | over every run with crashes the ordinals issued are one after another, each once, and a live entry carries the key it was issued with |
| `ManagedTheorems.CreatedIssuesFromOne` | crates/focal-client/src/managed_store.rs:450-487 | from a store's making through any run the identities issued carry the ordinals 1, 2, 3 and on, each once, the frontier counts them, and a live entry holds the one issued for its ordinal |
| `ManagedTheorems.ReserveExactly` | crates/focal-client/src/managed_store.rs:450-487 | reserving succeeds exactly while registered, issuing and with room, and issues the ordinal after the frontier |
| `ManagedTheorems.ReserveAnswersIssued` | crates/focal-client/src/managed_store.rs:450-487 | a reserve that answers issued exactly the identity it answered |
| `ManagedTheorems.StepIssues` | crates/focal-client/src/managed_store.rs:450-487 | no other call, and no crash, issues |
| `ManagedSafety.WindowOf` | crates/focal-client/src/managed_store.rs:177-239 | live entries are exactly the ordinals after the retired mark through the frontier, in order |
| `ManagedSafety.IndexFindsLive` | crates/focal-client/src/managed_store.rs:150-176 | an operation is found if and only if its key is a live entry's, and then at its place |
| `ManagedTheorems.OutstandingIsLive` | crates/focal-client/src/managed_store.rs:626-636 | the outstanding identities are exactly the live ordinals and each is found |
| `ManagedTheorems.OneEnvelope` | crates/focal-client/src/managed_store.rs:488-568 | every answer of prepare or request for one operation, any calls and crashes apart, is the same envelope, and every intent prepared the same |
| `ManagedTheorems.ExpandsOnce` | crates/focal-client/src/managed_store.rs:513-532 | a request already written is answered without being expanded |
| `ManagedTheorems.OneReceipt` | crates/focal-client/src/managed_store.rs:569-625 | every receipt recorded, by itself or with a seal's answer, or answered for one operation is the same |
| `ManagedTheorems.RecordSealedShows` | crates/focal-client/src/managed_store/controls.rs:200-247 | a seal's answer that is recorded leaves its receipt in the operation's file |
| `ManagedTheorems.ReceiptReadableWhen` | crates/focal-client/src/managed_store.rs:688-724 | a saved receipt is read back exactly when the entry is marked prepared or sealed, and is otherwise refused |
| `ManagedCut.CutRecordingUnreadable` | crates/focal-client/src/managed_store.rs:488-613 | for every operation just issued a prepare and a recording, each cut before it marks the entry, leave a receipt that cannot be read |
| `ManagedCut.UnreadableFromCreation` | crates/focal-client/src/managed_store.rs:569-613 | one such run from the store's making |
| `ManagedTheorems.OnlyRetiredLoseFiles` | crates/focal-client/src/managed_store.rs:637-668 | over any run a file that changed or went belonged to an ordinal retired by then |
| `ManagedTheorems.LoadedLeavesLiveFiles` | crates/focal-client/src/managed_store.rs:637-668 | every completed call that loads, whatever it answers, leaves no file of an ordinal retired before it; the one that does not load changes nothing |
| `ManagedTheorems.RetiredWasAcknowledged` | crates/focal-client/src/managed_store/controls.rs:124-199 | whatever is retired was retired by an acknowledgment naming the receipt then saved for it |
| `ManagedTheorems.NothingIssuesAfterStop` | crates/focal-client/src/managed_store.rs:413-430 | a stop that succeeded found all issued retired, and at every later moment nothing is issued and every reserve is refused |
| `ManagedRuns.RunsKeepInv` | crates/focal-client/src/managed_store.rs:177-239 | every state of every run keeps validity, files that fit their entries and no file outside the window |
| `ManagedRuns.RunsExtend` | crates/focal-client/src/managed_store.rs:488-613 | between any two moments nothing bound is rebound and no mark goes back |
| `ManagedRuns.ActLeavesMarks` | crates/focal-client/src/managed_store/controls.rs:124-274 | only reserving moves the frontier and only an answered acknowledgment the retired mark |
| `ManagedCalls.CallSound` | crates/focal-client/src/managed_store.rs:488-668 | every call stopped after any write keeps the invariant and all that is bound |
| `ManagedCalls.LoadSound` | crates/focal-client/src/managed_store.rs:637-668 | loading never fails on what the store left, and leaves exactly the live ordinals' files |
| `ManagedCalls.PrepareSealSound` | crates/focal-client/src/managed_store/controls.rs:51-95 | asking for a seal, stopped after any write, keeps the invariant and all that is bound |
| `ManagedAnswers.CallExactly` | crates/focal-client/src/managed_store.rs:413-668 | what every call of a store answers and leaves, in every state that meets the invariant |
| `ManagedAnswers.CreateExactly` | crates/focal-client/src/managed_store.rs:343-375 | when a store is made, and what it then holds |
| `ManagedAnswers.DrainExactly` | crates/focal-client/src/managed_store.rs:413-430 | both answers of the drain question, if and only if, and the stop it makes |
| `ManagedAnswers.PrepareExactly` | crates/focal-client/src/managed_store.rs:488-550 | the intent bound, the request expanded once and saved, or why not |
| `ManagedAnswers.ReceiptExactly` | crates/focal-client/src/managed_store.rs:569-613 | the one receipt that is recorded for an operation, or why it is not |
| `ManagedAnswers.AckExactly` | crates/focal-client/src/managed_store/controls.rs:11-48 | an acknowledgment names exactly the leading receipts that can be read, up to the maximum |
| `ManagedAnswers.SealExactly` | crates/focal-client/src/managed_store/controls.rs:51-95 | a seal asked for is pending for its operation and binds the saved request where there is one, else what an earlier seal bound, else the gap |
| `ManagedAnswers.ControlExactly` | crates/focal-client/src/managed_store/controls.rs:124-274 | which answer ends the pending control and what it leaves |
| `ManagedAnswers.LookExactly` | crates/focal-client/src/managed_store.rs:150-176 | an operation is found exactly if it is live, and is otherwise retired, of a conflicting request or missing |
| `ManagedAcknowledge.PreparedStands` | crates/focal-client/src/managed_store/controls.rs:11-48 | a saved acknowledgment names, in order, the saved receipts of a leading prefix |
| `ManagedAcknowledge.SavedAcknowledgmentCompletes` | crates/focal-client/src/managed_store/controls.rs:124-199 | while it is pending, whatever calls and crashes came between, its answer is accepted and retires exactly its prefix |
| `ManagedControls.PreparedSealStands` | crates/focal-client/src/managed_store/controls.rs:51-95 | a seal asked for is pending over the revision it was saved with |
| `ManagedControls.SavedSealCompletes` | crates/focal-client/src/managed_store/controls.rs:200-247 | while a seal is pending, whatever calls and crashes came between, its answer is accepted if and only if no other receipt was saved for the ordinal; the receipt is then the one kept and no mark moves, and otherwise nothing is written |
| `ManagedControls.PreparedCloseStands` | crates/focal-client/src/managed_store/controls.rs:106-121 | a close asked for is pending over a stopped stream with everything issued retired |
| `ManagedControls.SavedCloseCompletes` | crates/focal-client/src/managed_store/controls.rs:248-274 | while a close is pending, whatever came between, its answer is accepted, closes the stream and changes nothing else |
| `ManagedStore.ManagedOperationStore.Load` | crates/focal-client/src/managed_store.rs:637-668 | looking for the files and the removal loop make exactly the model's writes; loading succeeds and leaves exactly the files of live ordinals, unchanged |
| `ManagedStore.ManagedOperationStore.Reserve` | crates/focal-client/src/managed_store.rs:450-487 | the model's writes; all that is bound is kept; it succeeds exactly while the stream is registered, issuing and has room, issues the ordinal after the frontier, and is otherwise refused with the reason |
| `ManagedStore.ManagedOperationStore.Prepare` | crates/focal-client/src/managed_store.rs:488-550 | the model's writes in order; all that is bound is kept; exactly when it answers: the request saved before where its intent is this one, or the one expanded, saved and marked; what it is refused with otherwise, and what stays bound then |
| `ManagedStore.ManagedOperationStore.RecordReceipt` | crates/focal-client/src/managed_store.rs:569-613 | the model's writes in order; all that is bound is kept; a receipt is recorded exactly for a live operation whose request is saved, if it is of that request and no other is saved, and what it is refused with otherwise |
| `ManagedStore.ManagedOperationStore.StopIfDrained` | crates/focal-client/src/managed_store.rs:413-430 | the model's write; all that is bound is kept; it answers yes and stops the stream if and only if the stream is registered, neither stopped nor closed, has no control pending, issued something and as much as asked about, and all of it is retired; any other registered stream answers no and is left alone |
| `ManagedStore.ManagedOperationStore.RecordRegistration` | crates/focal-client/src/managed_store.rs:431-447 | the model's write; all that is bound is kept; a registration is recorded exactly if it is of the stream, owner and window asked for and no other is recorded |
| `ManagedStore.ManagedOperationStore.StopIssuance` | crates/focal-client/src/managed_store/controls.rs:97-105 | the model's write; all that is bound is kept, and it succeeds exactly on a registered stream, which is then stopped at the frontier it answers |
| `ManagedStore.ManagedOperationStore.PrepareAcknowledgment` | crates/focal-client/src/managed_store/controls.rs:11-48 | the model's writes, the manifest gathered by a loop; all that is bound is kept; exactly when it is asked for, naming all the leading receipts up to the maximum, and what it is refused with otherwise |
| `ManagedStore.ManagedOperationStore.PrepareSeal` | crates/focal-client/src/managed_store/controls.rs:51-95 | the model's writes; all that is bound is kept; exactly when it is asked for, binding the saved request, an earlier seal's binding or the gap, and what it is refused with otherwise |
| `ManagedStore.ManagedOperationStore.PrepareClose` | crates/focal-client/src/managed_store/controls.rs:106-121 | the model's write; all that is bound is kept; a close is asked for exactly on a stopped stream with everything issued retired and nothing pending |
| `ManagedStore.ManagedOperationStore.RecordControl` | crates/focal-client/src/managed_store/controls.rs:124-274 | the model's writes, the manifest checked by a loop; all that is bound is kept; exactly which answers to the pending control are recorded, what each leaves (its prefix retired, its receipt saved or the stream closed), and what others are refused with |
| `CheckpointReplay.CheckpointReplays` | crates/focal-consensus/src/checkpoint.rs:153-239 | a checkpoint's records, read back from nothing, are exactly the image, every entry after it, the hard state, what is held and released, and the decoders' records |
| `CheckpointReplay.FollowsExactly` | crates/focal-consensus/src/lib.rs:1791-1895 | a record is read back if and only if it may follow what was read: identity, fast track, floor and transition once each and bound, an image that does not go back, an entry within or right after the log that leaves what is committed, a hard state that goes on from the one before it; any other is corrupt |
| `CheckpointReplay.CompactLeaves` | crates/focal-consensus/src/storage.rs:433-461 | the log compacted in place is that same store |
| `CheckpointReplay.ImageReplays` | crates/focal-consensus/src/lib.rs:1861-1895 | the image and the entries after it are read back as they were |
| `CheckpointReplay.RestReplays` | crates/focal-consensus/src/lib.rs:1814-1884 | release, proposals and hard state are read back as they were |
| `CheckpointRuns.UpdateReplays` | crates/focal-consensus/src/persistence.rs:495-547 | a write's records, read back over any store, do what publishing the write does, a replaced tail included |
| `CheckpointTheorems.StateIsHistory` | crates/focal-consensus/src/lib.rs:1517-1584 | over every run of openings, drains, writes, points, checkpoints and crashes, what was gathered and not handed over is the group's history from what the application was given, or from an image, to what was applied; where points were captured with nothing owed, the application's state is the history through what it was given, and where the configuration had not moved, the configuration is the history's through what was applied |
| `CheckpointMeaning.CheckpointMeansTheSame` | crates/focal-consensus/src/checkpoint.rs:117-261 | a pending checkpoint's stream and the one it replaces are read back as the same member with the same entries after the point; through every committed entry from the point each restores the history's state where its image is, and the history's configuration where it names it |
| `CheckpointMeaning.CheckpointExactly` | crates/focal-consensus/src/checkpoint.rs:117-261 | over a right image the two streams restore the same state through every committed entry from the point if and only if the checkpoint's image is the history's there, and the same configuration if and only if its point names the history's |
| `CheckpointTheorems.UnguardedBreaks` | crates/focal-consensus/src/checkpoint.rs:84-95 | after a run whose points fitted, the states kept are all the history's after one step more if and only if it captures no point with something owed, and the configurations if and only if it captures none that has moved and takes no snapshot with another |
| `CheckpointTheorems.QuietIsGuarded` | crates/focal-ledger/src/cursor_session.rs:875-884 | a run in which every point is asked for with no drain under way and by an owner that was given what was delivered, and every snapshot taken names the history's configuration, captures each point where it fits |
| `CheckpointTheorems.EitherSideOpens` | crates/focal-consensus/src/lib.rs:754-914 | after a crash in any run the records are read back, whichever stream the disk kept, and the replica opens, wherever opening stops, if and only if the image's configuration accepts each change of the history applied over it; so in every run whose points named the history's configurations, and with the history's then; what it keeps takes a new application to the history where the images were the history's |
| `CheckpointTheorems.ChangesAreAccepted` | crates/focal-consensus/src/lib.rs:1542-1571 | in such a run no committed change still to be applied is ever refused |
| `CheckpointTheorems.OpensAgainExactly` | crates/focal-consensus/src/lib.rs:908-914 | a replica read back opens in some run if and only if the changes of some page opening may stop at are all accepted |
| `CheckpointTheorems.StaysDown` | crates/focal-consensus/src/lib.rs:908-914 | one refused wherever opening may stop stays as it is, whatever is done |
| `CheckpointConf.OpensExactly` | crates/focal-consensus/src/lib.rs:908-914 | opening succeeds if and only if each change applied is accepted over the image's configuration, and leaves that configuration with them applied |
| `CheckpointTheorems.RunsKeepInv` | crates/focal-consensus/src/storage.rs:346-415 | in every state of every run disk and memory stand for the same log |
| `CheckpointMeaning.RestoredIsHistory` | crates/focal-consensus/src/lib.rs:1517-1584 | an image with the entries after it restores the history if the image is, and the history's configuration if it names it |
| `CheckpointSteps.StepKeeps` | crates/focal-consensus/src/persistence.rs:389-692 | every step keeps that: a replica opened, a drain begun, its writes, entries applied and handed over, points captured at any moment, checkpoints begun, cancelled, taken and finished, and crashes |
| `CheckpointSteps.BeginExactly` | crates/focal-consensus/src/checkpoint.rs:117-146 | any point is accepted or refused, and with which reason, exactly by whether other work is under way, whether it names an entry of the history that was delivered and is still held with the configuration in memory, and whether the image fits; a captured one is accepted if and only if no drain or checkpoint is under way, no newer snapshot stands, the configuration in memory is the one captured and the image fits |
| `CheckpointSteps.PointIs` | crates/focal-consensus/src/checkpoint.rs:84-95 | an open replica's delivered prefix has a point exactly when something was delivered and no drain installed a snapshot past it, and it names the history's entry with the configuration then in memory |
| `CheckpointConf.PointFitsExactly` | crates/focal-consensus/src/checkpoint.rs:80-95 | the point and an image of the application's state are the history's at the entry if and only if what was delivered and not handed over leaves that state, and what was applied past it leaves the configuration; so always with nothing under way and nothing still to be handed over |
| `CheckpointState.ImageFitsExactly` | crates/focal-consensus/src/checkpoint.rs:80-95 | the image's half of that: it fits if and only if nothing is owed to the application, as once it was given what was delivered |
| `CheckpointConf.MovedExactly` | crates/focal-consensus/src/checkpoint.rs:80-95 | the configuration's half: it is the entry's if and only if what was applied past it leaves it, as with no drain under way |
| `CheckpointState.StepKeepsState` | crates/focal-consensus/src/persistence.rs:261-388 | where every state kept is the history's, a step leaves them so if and only if it captures no point with something owed to the application |
| `CheckpointConf.StepKeepsConf` | crates/focal-consensus/src/persistence.rs:389-692 | where every configuration kept is the history's, a step leaves them so if and only if it captures no point a drain has moved past and takes no snapshot with another configuration |
| `CheckpointConf.OverHistory` | crates/focal-consensus/src/lib.rs:1517-1584 | the changes of a stretch of the history, applied over the configuration before it, make the one after it |
| `CheckpointWitness.MidDrainPointClosesForGood` | crates/focal-consensus/src/lib.rs:908-914 | a run from a replica's making that captures a point while a drain that applied a change waits for a write, its application given what was delivered, and has it accepted; what it leaves names a configuration that is not the history's, and the replica never opens again, whatever is done |
| `CheckpointUnhanded.UnhandedPointRestoresAnother` | crates/focal-consensus/src/persistence.rs:93-95 | a run from a replica's making that captures a point between opening and the first drain, with no drain and no checkpoint under way, and has it accepted; reopened and handed everything kept, the application is in a state that is not the history's |
| `CheckpointWitness.DecideIsCore` | vendor/hyper-raft/src/configuration.rs:337-371 | the changes of that run are what the core makes of them, and the core refuses to leave a joint configuration twice |
| `CheckpointSteps.CrashKeeps` | crates/focal-consensus/src/lib.rs:754-847 | a crash leaves records that are read back, to a replica still to be opened that keeps the invariant |
| `CheckpointSteps.OpenKeeps` | crates/focal-consensus/src/lib.rs:849-914 | opening it, with the page applied, delivered and kept for the first drain, keeps the invariant |
| `CheckpointProgress.LearntIsDelivered` | crates/focal-consensus/src/persistence.rs:306-388 | from any state in which what is kept is the history's, an open replica that learns a commit can hand over everything through it, whatever drain is under way, and the application then has the history through it |
| `CheckpointProgress.Checkpoints` | crates/focal-consensus/src/checkpoint.rs:84-354 | and can then checkpoint it, with any image of the application's state that fits: what is left is that image, with the history's term and configuration, and exactly the entries after it |
| `CheckpointSteps.ShortensExactly` | crates/focal-consensus/src/storage.rs:433-461 | a checkpoint that is durable leaves its records as the stream, its image, and exactly the entries after it |
| `CheckpointReplica.Replica.Gather` | crates/focal-consensus/src/checkpoint.rs:183-239 | the loops gather exactly the model's records in order |
| `CheckpointReplica.Replica.BeginFrom` | crates/focal-consensus/src/checkpoint.rs:117-261 | accepted or refused, and with which reason, exactly as the history, what was delivered and the work under way call for, changing nothing where refused, else the records are pending; the invariant is kept, and a captured point is accepted if and only if nothing stands against it, a drain under way included |
| `CheckpointReplica.Replica.CancelUnadmitted` | crates/focal-consensus/src/checkpoint.rs:264-275 | cancelled exactly while the log has not taken it, and otherwise left as it is; the invariant is kept |
| `CheckpointReplica.Replica.Compacting` | crates/focal-consensus/src/storage.rs:433-461 | the popping loop leaves exactly the tail behind the snapshot |
| `CheckpointReplica.Replica.Progress` | crates/focal-consensus/src/checkpoint.rs:285-354 | exactly what a poll answers and leaves: a log with no room or not done leaves the records pending, once they are durable they are the stream and the log holds exactly the entries past the image; the invariant is kept; it fails exactly when the log refuses or loses the write, and the stream left is then read back, and opens if the configurations kept were the history's |
| `CheckpointReplica.Replica.CheckpointPoint` | crates/focal-consensus/src/checkpoint.rs:84-95 | there is a point exactly when the replica is open, something was delivered and no snapshot is past it; it names the history's entry and term; the application's state is of it if and only if nothing is owed, and the configuration if and only if no drain under way has moved it |
| `CheckpointReplica.Replica.Recover` | crates/focal-consensus/src/lib.rs:849-914 | a member read back opens exactly when no change of the page is refused, with the page applied, delivered and kept; the invariant is kept, and otherwise the change is refused and the replica fails |
| `CheckpointReplica.Replica.StartDrain` | crates/focal-consensus/src/persistence.rs:306-316 | a drain begins where the last one handed over, with what opening kept; the invariant is kept |
| `CheckpointReplica.Replica.ApplyEntries` | crates/focal-consensus/src/lib.rs:1517-1584 | the loop applies every entry exactly when they follow what was applied and none of their changes is refused, gathers them in order and folds the changes into the configuration at once; given the log's next committed entries it keeps the invariant |
| `CheckpointReplica.Replica.HandOver` | crates/focal-consensus/src/persistence.rs:351-388 | what was gathered leaves whole, only now is it delivered, and the application then has the history through it where the states kept were the history's; the invariant is kept |
| `ClientRetry.Send` | crates/focal-client/src/client.rs:609-881 | for every transport: exactly what is sent on each turn and what is answered, from the replies alone: which replies are followed by another turn, what each that ends the exchange is reported as, and what running out of attempts, time or clock is; a valid answer that came last is the outcome, and so is a refusal or information of a request that is no mutation or has nothing in doubt; sends are at most the attempts and 67 more, only the route epoch changes and never decreases, a mutation once in doubt ends unknown with its request, in a valid answer or in a native refusal, and a mutation is reported decided with something sent left open exactly when the last reply could not be read after a refusal or the last send was abandoned, with no doubt before |
| `ClientRetry.Exchange` | crates/focal-client/src/client.rs:685-881 | the loop does what the recursive exchange does, keeps those promises and answers exactly what the replies call for, a send its wait polled and then abandoned included |
| `ClientRetry.ExchangedAnswers` | crates/focal-client/src/client.rs:685-881 | the exchange, against any transport, sends and answers exactly what the replies so far call for, with no word of the counters and flags the loop keeps |
| `ClientRetry.AnswerReaches` | crates/focal-client/src/client.rs:761-799 | a valid answer that came last reaches the caller |
| `ClientRetry.ContinuedTracks` | crates/focal-client/src/client.rs:711-869 | a turn that goes on keeps count of what was sent, refused and in doubt |
| `ClientRetry.SettledPromised` | crates/focal-client/src/client.rs:870-880 | the loop's end reports a refusal only with nothing in doubt |
| `ClientRetry.UnreadReportedAsRefusal` | crates/focal-client/src/client.rs:824-827 | a run in which a mutation answered unreadably is reported as refused |
| `ClientRetry.AbandonedReportedAsFailure` | vendor/hyper-rt/src/futures.rs:339-346 | a run in which a mutation under way when no deadline can be kept is reported as a transport failure |
| `ClientRetry.DoubtEndsInNativeRefusal` | crates/focal-client/src/client.rs:787-799 | a run in which a mutation in doubt ends in a native refusal |
| `ClientBudget.ResendsAreThrottled` | crates/focal-client/src/client.rs:20-61 | in any interval of any interleaving ten times the resends allowed are fewer than sixty and the answers |
| `ClientBudget.TokensStayBounded` | crates/focal-client/src/client.rs:20-61 | tokens never exceed ten thousand thousandths |
| `ClientBudget.SpendingIsFunded` | crates/focal-client/src/client.rs:20-61 | what allowed resends spent was had at the start or earned |
| `ClientBudget.ThrottleIsTight` | crates/focal-client/src/client.rs:20-61 | an interleaving that meets the bound |
| `ClientBudget.RetryBudget.Refused` | crates/focal-client/src/client.rs:45-54 | one resend more is granted or none; over all the budget has seen, ten times the resends granted are fewer than sixty and the answers, and the tokens stay within the budget |
| `ClientBudget.RetryBudget.Answered` | crates/focal-client/src/client.rs:56-61 | earns unless the budget is full, stays within it and grants nothing |
| `ClientRoutes.UseCache` | crates/focal-client/src/client.rs:174-223 | any uses fewer than the clock can count leave a cache that stands for the plain least-recently-used list |
| `ClientRoutes.LookAgrees` | crates/focal-client/src/client.rs:184-189 | a lookup answers and reorders as the list does |
| `ClientRoutes.LearnAgrees` | crates/focal-client/src/client.rs:197-223 | learning a hint evicts and reorders as the list does |
| `ClientRoutes.OlderIsRefused` | crates/focal-client/src/client.rs:198-202 | an older hint is refused exactly when the list refuses it |
| `ClientRoutes.RunKeeps` | crates/focal-client/src/client.rs:174-223 | at most the capacity of ledgers, each once, however long it is used |
| `ClientRoutes.UseKeeps` | crates/focal-client/src/client.rs:197-223 | a use makes another ledger leave only for a new one with the cache full, and the least recently used |
| `ClientRoutes.EpochNeverDecreases` | crates/focal-client/src/client.rs:197-202 | while a ledger stays held its epoch never decreases |
| `ClientRoutes.Routes.Get` | crates/focal-client/src/client.rs:184-189 | the hint held, marked used now |
| `ClientRoutes.Routes.Insert` | crates/focal-client/src/client.rs:197-223 | an older hint leaves everything; another is held, one of the oldest leaving for it if there is no room |
| `Decoder.FloorReadsBack` | crates/focal-consensus/src/decoder.rs:356-386 | a floor record decodes to a hash if and only if it is that hash's record |
| `Decoder.TransitionReadsBack` | crates/focal-consensus/src/decoder.rs:388-445 | a transition record decodes to an ordered pair if and only if it is that pair's record |
| `DecoderAnswers.ReplayExactly` | crates/focal-consensus/src/lib.rs:1839-1860 | records are read back if and only if they hold at most one identity, after it at most one floor, and after that at most one transition from it, each well formed, and then state exactly those; any others are corrupt |
| `DecoderRuns.EffectiveOnlyAdvances` | crates/focal-consensus/src/decoder.rs:91-95 | over every run with crashes the effective decoder moves only from none to a floor and from it to its one successor; a successor that none preceded had its predecessor effective in between |
| `DecoderRuns.FloorComesFirst` | crates/focal-consensus/src/decoder.rs:160-167 | where nothing is effective no one step makes a transition so |
| `DecoderRuns.NewGroupAdvances` | crates/focal-consensus/src/decoder.rs:46-53 | from a group's making through any run its records are read back whole and a successor is effective only after its predecessor was |
| `DecoderAnswers.NewGroupReaches` | crates/focal-consensus/src/decoder.rs:246-354 | a run from a group's making in which the floor and then its successor become effective, each ready |
| `DecoderAnswers.ReopenedReaches` | crates/focal-consensus/src/decoder.rs:54-89 | from any moment of any run, once the group is reopened, every transition its durable records agree with can be brought into effect |
| `DecoderAnswers.CourseReaches` | crates/focal-consensus/src/decoder.rs:246-354 | the same from any gate just opened, whatever its records state |
| `DecoderAnswers.FloorExactly` | crates/focal-consensus/src/decoder.rs:109-133 | when a floor is to be staged, is there already or is refused |
| `DecoderAnswers.TransitionExactly` | crates/focal-consensus/src/decoder.rs:136-159 | when the registered transition is to be staged, is there already or is refused |
| `DecoderRuns.ReadyIsDurable` | crates/focal-consensus/src/decoder.rs:233-238 | a member says it decodes a hash only once its durable records state it |
| `DecoderRuns.RecoversWhole` | crates/focal-consensus/src/lib.rs:1839-1860 | whatever happened the records are read back without refusal and the gate opens as they state |
| `DecoderRuns.ConfirmedOnlyByPair` | crates/focal-consensus/src/decoder.rs:68-89 | a gate with a transition becomes confirmed only by registering that same pair |
| `DecoderRuns.ReopenedNeedsPair` | crates/focal-consensus/src/decoder.rs:54-89 | a group reopened with a transition refuses every single hash and every other pair and is confirmed by that pair |
| `DecoderRuns.ReopenedNeedsFloor` | crates/focal-consensus/src/decoder.rs:54-89 | a group reopened with a floor alone is confirmed exactly by it, alone or as a predecessor |
| `DecoderRuns.StepKeeps` | crates/focal-consensus/src/decoder.rs:246-354 | every step keeps records and gate in step, with at most one write unseen |
| `DecoderRuns.RunsExtend` | crates/focal-consensus/src/decoder.rs:160-167 | a floor or transition once stated is stated ever after |
| `DecoderOwner.Owner.Confirm` | crates/focal-consensus/src/decoder.rs:186-192 | the model's step; the invariant is kept; a hash is confirmed exactly unless it contradicts what is required or was confirmed or a transition needs its pair, a recovery that waited is rebuilt by the drain, and a drain that breaks fails the member |
| `DecoderOwner.Owner.ConfirmPair` | crates/focal-consensus/src/decoder.rs:197-206 | the model's step; the invariant is kept; a pair is registered exactly unless it contradicts what is required, confirmed or registered, a recovery that waited is rebuilt by the drain, and a drain that breaks fails the member |
| `DecoderOwner.Owner.BeginFloor` | crates/focal-consensus/src/decoder.rs:246-253 | the model's step; the invariant is kept; with the floor confirmed, nothing required and nothing staged it answers done and stages exactly that floor, unless other work refuses it; where it is required or staged nothing is done; and what it is refused with otherwise |
| `DecoderOwner.Owner.BeginTransition` | crates/focal-consensus/src/decoder.rs:258-265 | the model's step; the invariant is kept; with the pair compiled, its floor required and nothing staged it answers done and stages exactly that transition, unless other work refuses it; where it is required or staged nothing is done; and what it is refused with otherwise |
| `DecoderOwner.Owner.Poll` | crates/focal-consensus/src/decoder.rs:305-354 | the model's step; the invariant is kept; exactly what each poll answers and leaves for everything the log may say, and done is answered only once the durable records state exactly what the gate does |
| `Membership.ApplyTo` | crates/focal-consensus/src/membership.rs:85-139 | a change is accepted if and only if the configuration is valid, the roles admit it and the result fits; the result is canonical and its roles are the change's; and what each other is refused with |
| `Membership.ValidExactly` | crates/focal-consensus/src/membership.rs:27-49 | a configuration is valid if and only if its lists ascend within their bounds and its roles can decide |
| `Membership.CanonicalIsUnique` | crates/focal-consensus/src/membership.rs:27-40 | a canonical list is the only one of its members |
| `Membership.Sorted` | crates/focal-consensus/src/membership.rs:21-24 | distinct members put in order, none lost |
| `Membership.PredictedIsApplied` | crates/focal-consensus/src/membership.rs:140-160 | the core makes of an accepted change's entry exactly the configuration predicted |
| `Membership.AppliedExactly` | vendor/hyper-raft/src/configuration.rs:252-371 | for every stated change, simple, entering or leaving a joint configuration: when the core applies it, what it is refused with otherwise, and the role every member then has |
| `Membership.LastDecides` | vendor/hyper-raft/src/configuration.rs:252-306 | of changes made in order, the last that names a member decides its role, the outgoing half stays, and roles stay apart |
| `Membership.AppliedQuorumsMeet` | vendor/hyper-raft/src/configuration.rs:252-371 | for every change the core applies, simple, entering or leaving a joint configuration, every quorum before meets every quorum after |
| `Membership.ChangedQuorumsMeet` | crates/focal-consensus/src/membership.rs:175-199 | every quorum of a configuration meets every quorum of the one an accepted change makes |
| `Membership.ChainApplies` | crates/focal-consensus/src/membership.rs:140-160 | after each entry of a chain of accepted changes the core holds exactly the configuration predicted |
| `Membership.ChainQuorumsMeet` | crates/focal-consensus/src/membership.rs:175-199 | the core, given the entries of a chain of accepted changes in order, refuses none, and what it holds before an entry and after it cannot decide apart |
| `Membership.CoreValid` | vendor/hyper-raft/src/configuration.rs:149-186 | the core accepts exactly the roles that can decide |
| `Membership.FastMeetsClassic` | vendor/hyper-raft/src/quorum.rs:27-37 | a fast and a classic quorum share more than half of the classic one |
| `Membership.FastMeetsFast` | vendor/hyper-raft/src/quorum.rs:27-37 | two fast quorums share at least half of the members, and more unless these are a multiple of four |
| `Membership.FastMeetsFastInHalf` | vendor/hyper-raft/src/quorum.rs:27-37 | for every multiple of four some two share exactly half |
| `TermStart.FindStart` | crates/focal-consensus/src/core_state.rs:485-522 | for every ordered log whose term opens with recovered entries and its empty entry, that entry exactly when it is held and the term's first entry was not compacted, else none |
| `TermStart.Halve` | crates/focal-consensus/src/core_state.rs:496-505 | the halving finds the first held index of the term or above |
| `TermStart.Scan` | crates/focal-consensus/src/core_state.rs:506-521 | the first entry of the range that begins the term, or none |
| `TermStart.CommittedInTerm` | crates/focal-consensus/src/core_state.rs:466-477 | a fast follower says yes exactly when the entry is found and covered, so only if the commit covers it |
| `TermStart.TermBeganBy` | crates/focal-consensus/src/core_state.rs:480-482 | with the fast track exactly when the entry is found at or below the index |
| `TermStart.ClassicAgrees` | crates/focal-consensus/src/core_state.rs:473-476 | without the fast track a commit covers the term's first entry exactly when the entry committed is of the term |

## Left out

- Components.FindCycles: does not state the order of the cycles or of a cycle's members, which the code takes from the sorted callees.
- Native journal: the two older catalogue formats and their migration, encoded size bounds, file locks, and the read-only listings `usage`, `outstanding` and `key_of`.
- Conversion: `restore_group`, `needed_bytes`, reading the old log back, read faults of the new one, and machine-word overflow of byte counts.
- ConvertCopy.WriteNew: does not model a log that runs full or a disk that fails in the middle of the copy, which end the attempt like any other error; `ConvertRuns` states what is left of an attempt stopped anywhere.
- UploadJournal.Journal.Stage: a write it reports as failed is one that took no effect. One that took effect and was then reported as failed is a cut after that write, which the theorems of `UploadRuns` cover and the journal's methods do not.
- Upload journal: which of several validation errors is given, and the streaming hash over a reader.
- Managed store: `finish_initialization`, encoded size bounds, the identifier's text form, and reads that only report a field; a file that cannot be read is reported as corrupt.
- Checkpoint: the Raft core itself. `CheckpointRuns.Supplied` states what it gives to write: entries past the commit that follow each other, a hard state that goes on from the stored one, and committed entries that are the group's. A change of configuration is a given function of the configuration and the entry, which may refuse.
- Checkpoint: where a decoder is required opening waits for its confirmation, whose drain may be put off; here the replica is open once it is confirmed, with nothing applied where the drain was put off. A confirmation whose drain breaks leaves it to be opened again.
- CheckpointMeaning.CheckpointMeansTheSame: does not promise that both streams restore the history's state in every run, because a point taken before the first drain handed over makes it false; `CheckpointMeaning.CheckpointExactly` is when it holds.
- CheckpointTheorems.StateIsHistory: does not promise the application's state in every run, for the same reason; `CheckpointTheorems.UnguardedBreaks` is when it holds.
- Checkpoint: record encodings, the log's physical rewrite (one atomic step), memory charges, and when a drain that gathered a page hands over: it may at any moment. A drain that fails ends in the replica being opened again, which is a crash.
- CheckpointReplica.Replica.ApplyEntries: an entry that cannot be decoded is a change that is refused.
- CheckpointReplica.Replica.Progress: a refused or a lost write is one error, whatever the log's own was, and a dependency that unwinds, which fails the replica too, is not told apart.
- ClientRetry.Exchange: the shared budget and route cache are answers each turn meets, as other requests of the client change them in between; deadlines and jitter are likewise given, and so is whether a send was abandoned; a poisoned lock is not told from a refused hint.
- ClientRoutes.UseCache: nothing is claimed once the clock saturates, where the order of use is lost.
- Decoder gate: memory charges, and other work that refuses a call, which is a given answer.
- Membership.AppliedQuorumsMeet: the core's lists are sets, as it keeps them sorted and distinct; its bound on members and what is forgotten of a renewed member are not modelled.
- TermStart.CommittedInTerm: a leader's own knowledge of its first entry is a given answer.
- The rest of the repository: servers, storage engines, wire codecs, validators, scripts other than the recursion finder, and the older operation store, which follows the native journal's pattern with fewer states.
