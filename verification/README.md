# Westlake: verified models

Dafny models of the parts of this Android-on-OpenHarmony runtime whose correctness is an argument rather
than a look at one function: lock-free walks over a list that other threads edit, a service bind protocol
with two locks and a delivery worker, bytecode rewriting, concurrent traffic counters, buffer hand-over
between a callback codec and a polling client, the window session table, and four smaller cores with
arithmetic or round trips. Every theorem is over all inputs, all runs or all reachable states.

`dafny verify dfyconfig.toml` checks the whole project.

| file | what it models |
|---|---|
| `CodeRangeMemory.dfy`, `CodeRangeWalk.dfy`, `CodeRangeRegistry.dfy`, `CodeRangeCalls.dfy` | ART's registry of generated-code ranges: the memory and its single writes; signal-handler walks interleaved with adds and removals, link by link; the registry as one thread uses it, as a class; and that every interleaving is the plain list of ranges which its calls make |
| `InprocService.dfy`, `InprocQueue.dfy`, `InprocBinding.dfy`, `InprocBinder.dfy`, `InprocUnbind.dfy`, `InprocRuns.dfy`, `InprocLocks.dfy`, `InprocBridge.dfy` | in-process services: the transition system; the pending queue and its worker; creation and `onBind`; who is called with which binder; what can still happen after a disconnect; runs that reach the uncovered cases; the two locks; the queue code as a class |
| `DexMachine.dfy`, `DexRewrite.dfy`, `DexInsert.dfy`, `DexForms.dfy`, `DexPatches.dfy` | a register machine for Dalvik bodies; the tools that replace calls in place; editing a body with labels; that both forms of a body run alike; the tools that insert code |
| `TrafficStats.dfy` | the eBPF traffic counters, any number of packets at once |
| `CodecShim.dfy` | the synchronous MediaCodec front of an asynchronous codec |
| `WindowTable.dfy` | the window session table over a window service with arbitrary replies |
| `NterpFrame.dfy` | nterp's stack frame |
| `FontPin.dfy` | interposed `mmap`/`munmap` that keep font files mapped |
| `NeedlePatch.dfy` | the two recipes that null call sites in a binary |
| `TouchChannel.dfy` | the touch forwarder and the command poller |

How things are modelled: a concurrent component is a state, a step type, what enables a step and what it
does; a run is any sequence of enabled steps from the start. Clocks, timeouts, allocator addresses, IPC
replies, JNI results and what application code returns are choices of the step. Fields called history
(tickets, logs, stamps, snapshots) are read by no step except where a comment says so. A class beside such
a system has the source's fields and loops, and its methods are proved equal to the functions the system
uses. The machine that method bodies run on is not the repository's: how it chooses handlers, passes
arguments and leaves a method is in `DexMachine.HandlerChosen`, `DexMachine.TryChosen`, `DexMachine.Leaves`
and `DexRewrite.CallArgs`.

Memory is sequentially consistent. In the range registry one step is one load of a link by a walk, or one
store to a link or a list head; start and size of a node are read, and written, together, and a removal's
search under the lock is one step with its store. Elsewhere one step is one region under a lock, or one
call. `RunEmptyCheckpoint`, and the two cases in which the code skips it, is the contract that no walk
begun before the unlink is still running.

Where code and comments disagree the model follows the code:

- `bridge-src/oh_inproc_service.cpp:433-435` says that nothing is delivered after an unbind. That holds if
  and only if, at the disconnect, no bind or delivery of the connection is under way in any thread, other
  than a create that must fail, and no second entry of it is queued, other than one the worker has given up
  (`InprocUnbind.NothingAfterDisconnectIff`); `InprocRuns.CalledAfterUnbind` is a run where it fails.
- `bridge-src/oh_inproc_service.cpp:342-344` says that `onBind` runs once per service. It does exactly in
  the runs without re-entry (`InprocBinding.OnBindOnce`), because the lock around it is recursive;
  `InprocRuns.OnBindRunsTwice` is a run with two.
- `bridge-src/oh_mediacodec_shim.cpp:353` empties the queues and flushes the codec in two steps. Ownership
  of buffers survives exactly if no callback comes in between (`CodecShim.OneOwnerIffCleanFlushes`,
  `CodecShim.CleanIffNoCallback`), and an output that does is delivered after the flush
  (`CodecShim.OutputInFlushStays`).
- `bridge-src/oh_window_manager_client.cpp:522-563` keeps a dialog's window visible behind it only up to the
  steps named in `WindowTable.CoverKeptIff`.
- `arm64-session-2026-07-29/recipes/patch589.py:36-37` skips what is nulled already, so that a second run
  changes nothing; with listed words that overlap in part it refuses its own output instead
  (`NeedlePatch.IdempotentIff`).
- `arm64-session-2026-07-29/native-tools/touchfwd.c:66` sleeps for less than the poller's period, so that a
  command can be overwritten before it is read (`TouchChannel.OverwrittenUnread`);
  `TouchChannel.EachPolledCommandOnce` says which are dispatched.
- `arm64-session-2026-07-29/native-tools/touchfwd.c:48` takes the position last known for the start of a
  touch, before the touch has reported its own. `TouchChannel.StartInTouchIff` says when that is a position
  of the touch, and `TouchChannel.StaleStart` is a tap that is sent as a drag.

## Model

| member | source | states |
|---|---|---|
| `CodeRangeMemory.WrapTestIsMembership` | libart-build/src/fault_handler.cc:784-788 | the one unsigned comparison `pc - start < size` is interval membership for every pc if and only if the range does not wrap around the address space |
| `CodeRangeWalk.NoWalkOnRecycledNode` | libart-build/src/fault_handler.cc:636-749 | in every reachable state a running walk stands on a live node or on a removed one whose checkpoint still has to wait for it: never on one that is free, being recycled, being filled or deleted |
| `CodeRangeWalk.WalkLoadsAllocated` | libart-build/src/fault_handler.cc:783-801 | every load a walk is about to make is of an allocated node, in every interleaving, so a walk is never stuck |
| `CodeRangeWalk.WritesAllocated` | libart-build/src/fault_handler.cc:619-711 | the same for everything that adds, removals and recycling dereference |
| `CodeRangeWalk.WritersGoOn` | libart-build/src/fault_handler.cc:619-660 | in every reachable state the lock holder can go on, and with the lock free any add can begin and any node past its checkpoint be recycled or deleted |
| `CodeRangeWalk.NodesPartitioned` | libart-build/src/fault_handler.cc:163-174 | in every reachable state the live and the free list are duplicate-free chains, each allocated node is in exactly one of live, free, unlinked, past its checkpoint or in the lock holder's hand, every pool node is allocated, and no heap node is on the free list |
| `CodeRangeWalk.WalkKeepsSnapshot` | libart-build/src/fault_handler.cc:783-801 | a walk keeps the pc and the set of live nodes it began with, through any interleaving |
| `CodeRangeWalk.WalkAnswer` | libart-build/src/fault_handler.cc:755-801 | a negative answer means that the walk visited every range registered throughout it and none contains pc; a positive one that a range registered when it began, as it was then, contains pc |
| `CodeRangeWalk.SnapshotRanges` | libart-build/src/fault_handler.cc:636-649 | while a walk runs, no range that was registered when it began changes, removed or not |
| `CodeRangeWalk.MovesCounted` | libart-build/src/fault_handler.cc:784-801 | the moves of a walk, counted over any interleaving, are two for every node it visited, less one between test and next load |
| `CodeRangeWalk.WalkTerminates` | libart-build/src/fault_handler.cc:784-801 | whatever other threads do, a walk ends within twice the number of ranges live at its start plus one moves |
| `CodeRangeWalk.RunInv` | libart-build/src/fault_handler.cc:651-750 | the invariant (placement, insertion stamps decreasing along `next`, order, soundness of every walk) holds in every state of every run |
| `CodeRangeCalls.LiveRanges` | libart-build/src/fault_handler.cc:619-711 | over every run the live nodes hold, in order, start and size of the ranges that a plain list holds after the same calls: an add counts from where it publishes, with the range it was asked for, and a removal from where it unlinks |
| `CodeRangeCalls.RemovalGoesOnIff` | libart-build/src/fault_handler.cc:680-690 | with the lock free a removal goes on exactly if the most recently added range with its start has its size, by the calls so far |
| `CodeRangeCalls.WalkAnswersCalls` | libart-build/src/fault_handler.cc:783-801 | for every walk in every interleaving: a range that is registered all the time and passes the test makes the answer positive, and a positive answer means that such a range was registered when the walk began; registered by the calls alone |
| `CodeRangeCalls.AddedIsFound` | libart-build/src/fault_handler.cc:651-801 | a non-wrapping range whose add was published before a walk began, and which no removal asked to take until the walk ended, is found for every pc in its interval |
| `CodeRangeRegistry.FaultManager.constructor` | libart-build/src/fault_handler.cc:162-174 | after Init the registry is empty and the whole pool is free, in address order |
| `CodeRangeRegistry.FaultManager.ChainPool` | libart-build/src/fault_handler.cc:164-172 | the set-up loop links exactly the pool's nodes, each to its neighbour and the last to nothing, all cleared |
| `CodeRangeRegistry.Replay` | libart-build/src/fault_handler.cc:651-801 | after any sequence of adds and removals the registry has aborted exactly if a plain list of ranges, most recent first, has a removal without a match, and otherwise the list walk says for non-wrapping ranges whether some registered interval contains pc |
| `CodeRangeRegistry.FaultManager.Add` | libart-build/src/fault_handler.cc:651-659 | the range becomes the first registered one; the node comes from the free list if there is one, else from the heap; list shape kept |
| `CodeRangeRegistry.FaultManager.Remove` | libart-build/src/fault_handler.cc:680-711 | the most recent range with this start goes and all others stay in order; no such start and another size are the two aborting outcomes, characterised by the contents |
| `CodeRangeRegistry.FaultManager.Find` | libart-build/src/fault_handler.cc:685-690 | the search ends at the first node with the given start and the link before it, or at the end of the list |
| `CodeRangeRegistry.FaultManager.Unlink` | libart-build/src/fault_handler.cc:691-707 | one store takes the node out; its own `next` stays |
| `CodeRangeRegistry.FaultManager.Recycle` | libart-build/src/fault_handler.cc:636-649 | a pool node is cleared and pushed on the free list, a heap node deleted |
| `CodeRangeRegistry.FaultManager.IsInGeneratedCode` | libart-build/src/fault_handler.cc:783-801 | the answer is that some registered range passes the test, and for non-wrapping ranges that some registered interval contains pc |
| `CodeRangeRegistry.FaultManager.Shutdown` | libart-build/src/fault_handler.cc:216-230 | the list is emptied, exactly the live heap nodes are deleted, the free list is as before |
| `InprocQueue.NoBindStranded` | bridge-src/oh_inproc_service.cpp:408-422 | in every state of every run at most one thread is in the worker loop, there is one exactly if the flag says so, and while anything is queued the flag is set if and only if the worker spawned last did not fail to attach |
| `InprocQueue.BindLeavesOnce` | bridge-src/oh_inproc_service.cpp:416-456 | a queued bind is in the queue exactly while its fate is open, and a decided fate changes only from claimed to settled |
| `InprocQueue.QueueExits` | bridge-src/oh_inproc_service.cpp:484-508 | a bind leaves the queue only by a disconnect of its own connection, by the rollback of a failed spawn of a bind for its class and connection (its own, or a repeated one that takes back a stranded entry), or by a claim of the one worker |
| `InprocQueue.DeliversOnlyClaims` | bridge-src/oh_inproc_service.cpp:438-452 | every delivery out of the queue is of a bind that was claimed, to the connection and class that asked, and at most once; one that a disconnect, rollback or timeout took is never delivered from the queue |
| `InprocQueue.DisconnectClears` | bridge-src/oh_inproc_service.cpp:517-521 | a disconnect leaves nothing queued for its connection if and only if at most one bind was queued for it |
| `InprocQueue.NoClaimAfterDisconnect` | bridge-src/oh_inproc_service.cpp:434-446 | with one class per connection, from a disconnect until a bind of the connection is queued again, nothing is queued or newly claimed for it, and nothing is delivered to it from the queue but what was claimed before the disconnect |
| `InprocUnbind.CallableIffUnderWay` | bridge-src/oh_inproc_service.cpp:349-527 | in every reachable state a connection can still be called without binding again if and only if a bind or delivery of it is under way in some thread (other than a create that must fail) or an entry of it is queued that the worker has not given up |
| `InprocUnbind.NothingAfterDisconnectIff` | bridge-src/oh_inproc_service.cpp:517-521 | after a disconnect no continuation without a new bind calls the connection, from the queue or directly, if and only if at the disconnect nothing of it was under way in any thread, other than a create that must fail, and no second entry of it was queued, other than one the worker has given up |
| `InprocUnbind.NothingAfterDisconnectOneClass` | bridge-src/oh_inproc_service.cpp:517-521 | with one class per connection the condition is that nothing of the connection is under way in any thread, other than a create that must fail |
| `InprocUnbind.NotCalledUntilRebound` | bridge-src/oh_inproc_service.cpp:433-448 | over every run, a connection with nothing under way is not called again until it binds again |
| `InprocUnbind.DeliveryArrives` | bridge-src/oh_inproc_service.cpp:349-403 | from every reachable state a delivery under way, at any depth of any thread's stack and whoever holds the bind lock, first bind included, can go on to the call |
| `InprocUnbind.EntryArrives` | bridge-src/oh_inproc_service.cpp:416-456 | from every reachable state an entry that the worker has not given up can be claimed and delivered |
| `InprocRuns.CalledAfterUnbind` | bridge-src/oh_inproc_service.cpp:438-448 | a run from the start in which a bind is claimed, its connection disconnected, and the connection then called |
| `InprocRuns.QueueWithoutWorker` | bridge-src/oh_inproc_service.cpp:410-414 | a run from the start that ends with an accepted bind in the queue, no worker and no thread in this code |
| `InprocBinding.CreatedOnce` | bridge-src/oh_inproc_service.cpp:262-312 | over every run at most one framework create per class is successfully scheduled, and a record's token and instance never change once set |
| `InprocBinding.OnBindOnce` | bridge-src/oh_inproc_service.cpp:362-392 | across all threads `onBind` runs at most once per class if and only if no `onBind` re-enters a first bind of its own class on its own thread |
| `InprocBinding.DeliveriesAgree` | bridge-src/oh_inproc_service.cpp:349-403 | in those runs all deliveries for a class carry the same binder |
| `InprocBinder.DeliveredBinder` | bridge-src/oh_inproc_service.cpp:349-403 | in every run, re-entry included, a delivery carries what an earlier `onBind` of that class returned: the result whose store came last before the delivering thread read the record |
| `InprocBinder.DeliversResult` | bridge-src/oh_inproc_service.cpp:377-391 | without re-entry every delivery for a class carries what its `onBind` returned, and `onBind` never returned anything else |
| `InprocBinder.DeliversAsked` | bridge-src/oh_inproc_service.cpp:466-511 | every delivery, from the queue or direct, goes to a connection that has asked for that class |
| `InprocBinder.QueuedHaveTokens` | bridge-src/oh_inproc_service.cpp:482-488 | over every run a bind waits in the queue only for a class that runs or whose creation was scheduled: one whose create failed is not queued |
| `InprocBinder.KnownIff` | bridge-src/oh_inproc_service.cpp:471-527 | over every run a connection is known exactly if it has asked for a bind and not disconnected since |
| `InprocBinder.RecordsFramework` | bridge-src/oh_inproc_service.cpp:228-255 | over every run a record's instance is the framework's own for that class, and so is its token unless it was created here |
| `InprocBinder.CreatedToken` | bridge-src/oh_inproc_service.cpp:262-312 | a class that was created here keeps the token it was created with |
| `InprocBinding.BindLockExcludes` | bridge-src/oh_inproc_service.cpp:365-392 | two threads are never both in the region that the bind lock guards |
| `InprocRuns.OnBindRunsTwice` | bridge-src/oh_inproc_service.cpp:365-378 | a run from the start in which an `onBind` binds its own class and `onBind` runs for it twice |
| `InprocLocks.CallDisciplined` | bridge-src/oh_inproc_service.cpp:349-403 | every entry point, however deeply `onBind` re-enters, never acquires the bind lock while holding the state lock, and gives back both; it touches the tables only under the state lock, runs `onBind` under the bind lock, and calls no application code under the state lock |
| `InprocLocks.NeverDeadlocked` | bridge-src/oh_inproc_service.cpp:96-104 | for any threads making any calls under any schedule, while one has work left, one can move |
| `InprocBridge.BindQueue.Enqueue` | bridge-src/oh_inproc_service.cpp:484-508 | the queue, the worker flag and the answer after a bind is queued: no duplicate entry, and a failed spawn takes the entry back |
| `InprocBridge.BindQueue.Claim` | bridge-src/oh_inproc_service.cpp:437-446 | exactly the first entry for this connection and class is taken, if there is one |
| `InprocBridge.BindQueue.Disconnect` | bridge-src/oh_inproc_service.cpp:517-527 | exactly the first entry of the connection is taken, the connection is forgotten, and the answer says whether it was known |
| `InprocBridge.BindQueue.WorkerRound` | bridge-src/oh_inproc_service.cpp:418-455 | an undisturbed round delivers exactly the entries whose service is there, drops exactly those past their deadline besides, and leaves exactly the others, each in order |
| `DexRewrite.Rewritten` | arm64-session-2026-07-29/tools/DexRewrite.java:39-49 | a replaced call has the same size and argument registers, and is not a call the tool would replace again |
| `DexRewrite.FrameworkCalls` | arm64-session-2026-07-29/tools/FwRewrite.java:25-55 | a site is exactly an interface range call of `registerReceiverWithFeature` or `getIntentSenderWithFeature` of `IActivityManager`; it becomes the static call of `WlAmsBridge`'s method of that name and return type with the same registers, each of which holds what it was declared to hold before, the manager first; nothing else changes |
| `DexRewrite.AppCalls` | arm64-session-2026-07-29/tools/DexRewrite.java:22-49 | a site is exactly an interface call of `b` or `a` of `Lq6/b;` or of `value` of `Lg9/f;`; each goes to its own helper of `WlProxy` with the same registers, and the helper takes as many arguments as are passed exactly if the method takes one parameter (`value`: none) |
| `DexRewrite.AddressesKept` | arm64-session-2026-07-29/tools/DexRewrite.java:36-59 | every instruction of every body keeps its code-unit address, so branch offsets, try ranges and debug items keep naming the same instructions |
| `DexRewrite.FetchRewritten` | arm64-session-2026-07-29/tools/FwRewrite.java:42-63 | at every address the rewritten body has the rewritten instruction, and none where there was none |
| `DexRewrite.LockStep` | arm64-session-2026-07-29/tools/FwRewrite.java:42-63 | with helpers that do what the interface calls did, the rewritten method is in the same state as the original after any number of steps from any state, through branches, exceptions and returns |
| `DexRewrite.ExecRewrittenIff` | arm64-session-2026-07-29/tools/DexRewrite.java:30-34 | a replaced call that returns acts as before if and only if the helper is as void as the method it stands for |
| `DexRewrite.FrameworkKeepsVoidness` | arm64-session-2026-07-29/tools/FwRewrite.java:25-40 | the framework tool keeps return types, so that its lock step needs no condition on the bodies |
| `DexRewrite.RewriteBody` | arm64-session-2026-07-29/tools/DexRewrite.java:36-59 | the loop's result is the rewritten body with its number of sites, and an unchanged body comes back as it was |
| `DexRewrite.RewriteFramework` | arm64-session-2026-07-29/tools/FwRewrite.java:65-104 | a file is written if and only if exactly six sites were found, and then it is the file with every such call bridged, and all else in it kept, followed by the helper's methods as they are |
| `DexRewrite.RewriteTwice` | arm64-session-2026-07-29/tools/FwRewrite.java:91-103 | a second run on the tool's own output succeeds if and only if the first did and the helper, merged unrewritten, itself holds exactly six sites: none is left in what was rewritten |
| `DexRewrite.NoSitesLeft` | arm64-session-2026-07-29/tools/DexRewrite.java:39-56 | no site is left in a rewritten body |
| `DexForms.SameRun` | arm64-session-2026-07-29/tools/DexRewrite.java:57-59 | a stored body, run by addresses and offsets, and its labelled form, run by instruction indices, are in the same state at the same instruction after any number of steps |
| `DexInsert.ExpandedTwice` | framework-patch-tools/PatchProxy.java:79-83 | edits compose: inserting into an edited body is one edit of the original, labels, handlers and try ranges included |
| `DexInsert.InsertedExpands` | framework-patch-tools/PatchProxy.java:75-79 | one insertion keeps every old instruction, in order, with labels on the instructions they were on |
| `DexInsert.LabelsMissGaps` | framework-patch-tools/PatchProxy.java:75-83 | no label of the old body points into inserted code |
| `DexInsert.TryRelabelled` | framework-patch-tools/PatchProxy.java:79-83 | inserted code is covered by exactly the handlers of the instruction before it |
| `DexInsert.RefRunExpanded` | framework-patch-tools/PatchProxy.java:54-85 | every run of the old body with the effect of the inserted code added is a run of the edited body |
| `DexInsert.ExpansionTracksRef` | framework-patch-tools/PatchProxy.java:54-85 | and every state of the edited body is at most five steps past a state of such a run |
| `DexPatches.ProxiedRuns` | framework-patch-tools/PatchProxy.java:54-85 | the patched method is, run for run, the old one with a null result replaced by a proxy around a new Binder, or by the exception that making it raises, handled where the call's was |
| `DexPatches.ProxiedOnly` | framework-patch-tools/PatchProxy.java:54-85 | every state of the patched method is at most five steps past one of those |
| `DexPatches.NonNullUnchanged` | framework-patch-tools/PatchProxy.java:72-83 | a run in which the call never returns null is a run of the patched method, with the same registers, heap, exceptions and results |
| `DexPatches.NullReplaced` | framework-patch-tools/PatchProxy.java:79-83 | from whatever the call hands over, no other register changes, non-null data does not change at all, and when Binders can be made control reaches the old next instruction with a non-null reference |
| `DexPatches.BlockEnteredByFallThrough` | framework-patch-tools/PatchProxy.java:75-83 | no branch target, handler or try boundary of the patched body is a position in the inserted block |
| `DexPatches.InsertProxy` | framework-patch-tools/PatchProxy.java:74-83 | the five insertions leave the block before the instruction that followed the move-result, its skip label on that instruction, and the rest of the body relabelled |
| `DexPatches.GuardBlock` | framework-patch-tools/PatchProxy.java:74-83 | the block in place: skip if non-null to the instruction after it, a new `Binder` in the register, its constructor, the stub's static `asInterface` on it, and the result moved back |
| `DexPatches.FindCall` | framework-patch-tools/PatchProxy.java:56-67 | the search stops at the first call, of either format, with one of the names (and of that class, if one is given), or there is none |
| `DexPatches.PatchProxy` | framework-patch-tools/PatchProxy.java:54-85 | patched after the first call of the stub's own `asInterface`, if its result goes to a register up to 15, with a block that calls that same method; skipped otherwise |
| `DexPatches.PatchPendingIntent` | framework-patch-tools/PatchPI.java:66-126 | patched after the first call of `getIntentSenderWithFeature` or `getIntentSender` of any class, with the block for `IIntentSender`; refused if its register is above 15, skipped if there is no such call with a moved result |
| `DexPatches.InsertLogCalls` | arm64-session-2026-07-29/tools/PatchLog.java:26-43 | the backward loop puts a log call after every move-exception with a register below 16, changes nothing else, and counts them |
| `DexPatches.LogCall` | arm64-session-2026-07-29/tools/PatchLog.java:26-41 | every move-exception into a register up to 15, moved on by one for each such before it, is followed by the static `WlProbe.logThrowable` on that register |
| `DexPatches.LoggedRuns` | arm64-session-2026-07-29/tools/PatchLog.java:26-43 | the patched method is, run for run, the old one that also reports every exception it catches |
| `DexPatches.LogUnnoticed` | arm64-session-2026-07-29/tools/PatchLog.java:34-40 | if reporting returns and leaves the heap alone, every run of the old method is a run of the patched one |
| `TrafficStats.AllOrNothing` | bpf-analysis/netsys-ebpf.c:67-179 | once all packets are through, in any schedule, every row is in the map of its kind, has a packet that it is about, and counts exactly the packets and bytes of those with its uid, uid and interface, interface, or socket cookie, both ways, modulo 2^64 |
| `TrafficStats.RowShared` | bpf-analysis/netsys-ebpf.c:77-121 | two packets share a row of a map if and only if they agree on uid, on uid and interface, on interface, or on cookie |
| `TrafficStats.MissedOnlyWhenFull` | bpf-analysis/netsys-ebpf.c:77-86 | a key that is about a packet has no row only if its map holds as many rows as it may, and none ever holds more |
| `TrafficStats.RowsAgree` | bpf-analysis/netsys-ebpf.c:87-107 | while no map is full, each uid row is the sum of its uid/interface rows and each interface row the sum over uids |
| `TrafficStats.InvAfter` | bpf-analysis/netsys-ebpf.c:67-179 | after any schedule, finished or not, every row holds exactly what its packets have added so far, and every packet past a map has a row there or found it full |
| `TrafficStats.TwentyStepsSuffice` | bpf-analysis/netsys-ebpf.c:67-122 | no packet waits for another: twenty steps of its own finish it |
| `TrafficStats.UninterruptedStages` | bpf-analysis/netsys-ebpf.c:77-86 | the atomic stages of one packet at one map, uninterrupted, are insert-if-possible and then add to the row |
| `TrafficStats.TrafficMaps.Count` | bpf-analysis/netsys-ebpf.c:77-86 | the block for one map changes that map alone, by the same function |
| `TrafficStats.AccountedRow` | bpf-analysis/netsys-ebpf.c:77-121 | one packet adds its amount to the rows that are about it, by its own fields, and changes no other |
| `TrafficStats.TrafficMaps.Handle` | bpf-analysis/netsys-ebpf.c:124-179 | an ignored packet changes nothing, any other one every map by that function; the packet is always let through |
| `CodecShim.OutputsInOrder` | bridge-src/oh_mediacodec_shim.cpp:302-323 | in every run, callbacks during a flush included, the client sees the format change exactly once, first, and then outputs in order: those seen and those still queued are together all that no flush found in the queue; each with the offset, size and time that the codec gave it, and the end-of-stream flag as 4 for the codec's 1 |
| `CodecShim.OneOwnerIffCleanFlushes` | bridge-src/oh_mediacodec_shim.cpp:183-193 | each index of either direction has exactly one owner (codec, queue or client, or a flush under way) in all states of a run, with the codec's buffer retained while queued or with the client, if and only if both queues are empty whenever a flush reaches the codec |
| `CodecShim.CleanIffNoCallback` | bridge-src/oh_mediacodec_shim.cpp:353 | between the halves of a flush both queues are empty if and only if no input or output callback has come |
| `CodecShim.FlushingIff` | bridge-src/oh_mediacodec_shim.cpp:353 | in every run the client is in a flush exactly from its first half to its second |
| `CodecShim.DequeueReturns` | bridge-src/oh_mediacodec_shim.cpp:260-323 | outside a flush a dequeue with a timeout always returns, and one without exactly if there is something to return or the codec has failed, which it may at any time |
| `CodecShim.QueueFindsBuffer` | bridge-src/oh_mediacodec_shim.cpp:290-298 | in such runs an input that the client queues finds its buffer, the codec's own, and is written there with the client's offset, size and time, and 1 for its end-of-stream flag 4 |
| `CodecShim.OutputInFlushStays` | bridge-src/oh_mediacodec_shim.cpp:353 | an output that comes between the halves of a flush is neither lost nor withdrawn: it stays queued, although its index is the codec's again, and is delivered next |
| `CodecShim.QueuedTwice` | bridge-src/oh_mediacodec_shim.cpp:353 | a run from the start that ends with both queues holding an index twice |
| `CodecShim.Drive` | bridge-src/oh_mediacodec_shim.cpp:183-353 | the object, driven through any run: what its calls return to the client is the format change once and first, and then, with what is still queued, every output that no flush found in the queue, in order; and its inputs are written as in the run |
| `CodecShim.Call` | bridge-src/oh_mediacodec_shim.cpp:260-330 | one call or callback on the object moves every state of the transition system that has its queues to the next one, and returns what that state's client sees |
| `WindowTable.ForestOfDepthOne` | bridge-src/oh_window_manager_client.cpp:522-554 | in every run with new non-zero window ids a window has a parent exactly if it is not main, a parent in the table is another, main window, and no child has children |
| `WindowTable.AtMostOneMain` | bridge-src/oh_window_manager_client.cpp:254-283 | while only application windows are created there is at most one main window at a time |
| `WindowTable.FrontRoseLast` | bridge-src/oh_window_manager_client.cpp:522-563 | in every run the front window is the main window that was put on the screen last, by its creation, by a show or as the parent of a new window; none if none ever was |
| `WindowTable.NewWindow` | bridge-src/oh_window_manager_client.cpp:240-563 | the row of a new window by its Android type and the table: seven system types are main windows without parent, any other is a sub-window of the front main window, else of the main window with the highest session id, else main; filed under its window id where that is below 2^31 |
| `WindowTable.WindowTypes` | bridge-src/oh_window_manager_client.cpp:130-165 | which Android types are dialogs, toasts, floats and input-method floats |
| `WindowTable.CacheIsService` | bridge-src/oh_window_manager_client.cpp:540-545 | in every run the cached flag of every session is what the window service shows |
| `WindowTable.DestroyKeepsCacheIff` | bridge-src/oh_window_manager_client.cpp:638-660 | destroying a number keeps the table right if and only if it is not negative with 2^32 more being the shown window of a session |
| `WindowTable.IpcOnlyOnChange` | bridge-src/oh_window_manager_client.cpp:682-790 | show and hide call the service exactly if the requested state differs (and, for hide, the guard allows it), once and for that window; repeating a show costs nothing |
| `WindowTable.HideKeepsParentUp` | bridge-src/oh_window_manager_client.cpp:698-717 | no hide takes a window off the screen while a sub-window of it is on it |
| `WindowTable.CoverKeptIff` | bridge-src/oh_window_manager_client.cpp:556-563 | a step keeps every shown sub-window over a shown parent if and only if it is neither a successful show of a sub-window with a hidden parent nor a creation whose parent could not be shown again |
| `WindowTable.DialogOverHiddenWindow` | bridge-src/oh_window_manager_client.cpp:682-790 | a run that ends with a dialog over a hidden window: hide it, hide the window, show it |
| `WindowTable.WindowClient.ChooseParent` | bridge-src/oh_window_manager_client.cpp:254-277 | the parent is the front main window if it is still there, else the main window with the highest session id, else none |
| `WindowTable.WindowClient.CreateSession` | bridge-src/oh_window_manager_client.cpp:206-575 | the table, front window, service and answer after a creation, for every failure and success |
| `WindowTable.WindowClient.ShowWindow` | bridge-src/oh_window_manager_client.cpp:742-790 | the table, front window, service and return code after a show |
| `WindowTable.WindowClient.HideWindow` | bridge-src/oh_window_manager_client.cpp:682-740 | the table, service and return code after a hide, guard included |
| `WindowTable.WindowClient.HasChildUp` | bridge-src/oh_window_manager_client.cpp:707-716 | the scan finds a shown sub-window exactly if there is one |
| `WindowTable.Drive` | bridge-src/oh_window_manager_client.cpp:196-790 | the object, driven through any run, goes through the run's states: its cache is what the service shows, and with application windows only it has at most one main window |
| `NterpFrame.RegistersFit` | libart-build/src/nterp_helpers.cc:156-184 | for all register and out counts and both pointer sizes everything below the callee saves fits under them, although the size formula leaves out the padding of the out arguments, and the frame is less than 16 bytes larger than it must be |
| `NterpFrame.PartsDisjoint` | libart-build/src/nterp_helpers.cc:160-217 | method slot, padded outs, dex pc, caller's frame pointer, references, registers and callee saves are in order, do not overlap and end at the end of the frame |
| `NterpFrame.PartSizes` | libart-build/src/nterp_helpers.cc:136-217 | what each part has room for: a pointer, the out arguments (three at least on x86) with less than a pointer of padding, two pointers, a word per register in either array, and the callee saves |
| `NterpFrame.SlotsAligned` | libart-build/src/nterp_helpers.cc:201-217 | pointer slots are pointer-aligned, the arrays word-aligned, the frame stack-aligned |
| `NterpFrame.RegistersApart` | libart-build/src/nterp_helpers.cc:194-226 | two dex registers, or a register and a reference, never share a byte, and none reaches the callee saves |
| `NterpFrame.LimitTestExact` | libart-build/src/nterp_helpers.cc:280-284 | for an aligned limit the test on the unpadded size is the test on the padded one |
| `FontPin.OverlapIsPageOverlap` | arm64-session-2026-07-29/native-tools/fontpin.c:69-71 | for aligned non-wrapping ranges the byte-wise test, in wrapping arithmetic, holds if and only if the ranges share a page |
| `FontPin.PagesOfBytes` | arm64-session-2026-07-29/native-tools/fontpin.c:69-71 | the pages of a range are exactly those of 4096 bytes that its bytes are on |
| `FontPin.FontsStayMapped` | arm64-session-2026-07-29/native-tools/fontpin.c:47-78 | over every run without fixed-address remaps all pages of the first 512 font files mapped, by the calls alone, are mapped in every later state |
| `FontPin.UnmapKeepsPinned` | arm64-session-2026-07-29/native-tools/fontpin.c:64-78 | no unmap, whatever its arguments, touches a pinned page |
| `FontPin.UnrelatedUnmapsPass` | arm64-session-2026-07-29/native-tools/fontpin.c:64-78 | an unmap of a proper range is swallowed, as a success, exactly if it shares a page with a pinned mapping, and else is the kernel's |
| `FontPin.LaterFontsUnpinned` | arm64-session-2026-07-29/native-tools/fontpin.c:52-56 | with a full table a further font mapping is unmapped like any other |
| `FontPin.PinTable.MapPages` | arm64-session-2026-07-29/native-tools/fontpin.c:47-60 | a successful font mapping takes the next slot while there is one |
| `FontPin.PinTable.UnmapPages` | arm64-session-2026-07-29/native-tools/fontpin.c:64-78 | the scan swallows the unmap exactly if some slot in use passes the test |
| `NeedlePatch.NullSitesExact` | arm64-session-2026-07-29/recipes/patch589.py:33-41 | for words that do not overlap in part, the outcome from the original binary alone: the first site out of the file or holding anything but the call or the nulled word decides the failure, else exactly the listed words are nulled, and the count is of the listed calls, each once |
| `NeedlePatch.OthersUnchanged` | arm64-session-2026-07-29/recipes/patch589.py:33-41 | for every binary and table, a byte of no listed word never changes |
| `NeedlePatch.ChangesOnlyListedWords` | arm64-session-2026-07-29/recipes/patch591.py:21-28 | for words that do not overlap in part: success if and only if every listed word is a call or nulled already; then those words are nulled and no other byte changes |
| `NeedlePatch.NullsAllIff` | arm64-session-2026-07-29/recipes/patch591.py:21-28 | for every table: all binaries with calls at the listed places come out with all of them nulled if and only if no two listed words overlap in part |
| `NeedlePatch.AlignedApart` | arm64-session-2026-07-29/recipes/patch589.py:34 | word-aligned sites do not overlap in part, if none is before the start of the file or the file ends on a word |
| `NeedlePatch.PlaceOf` | arm64-session-2026-07-29/recipes/patch589.py:34 | an address is 0x1000 before its value in the file, or counts from the file's end if it is before its start |
| `NeedlePatch.SiteOf` | arm64-session-2026-07-29/recipes/patch589.py:20-33 | recipe 589 goes through the sites of all needles but `SurfaceControl`, `com/google/gson`, `androidx/lifecycle` and `java/lang/reflect`, recipe 591 through all |
| `NeedlePatch.IdempotentIff` | arm64-session-2026-07-29/recipes/patch589.py:36-37 | for every binary and table on which a recipe succeeds: on its own output it succeeds, changes nothing and counts nothing if no two listed words overlap in part, and refuses otherwise |
| `NeedlePatch.Patch591After589` | arm64-session-2026-07-29/recipes/patch591.py:21-29 | whenever 589 succeeds, 591 after it gives the same binary, or the same failure, as 591 alone, and the two counts add up to that of 591, if no word of 589 starts inside a listed word; words that 589 keeps may overlap as they like and start inside words of 589 |
| `NeedlePatch.Patch591After589Iff` | arm64-session-2026-07-29/recipes/patch591.py:21-29 | for a table with all sites in the file the recipes in a row agree with 591 alone, for every binary that 589 accepts, if and only if that condition holds or some listed word starts inside one listed after it |
| `NeedlePatch.UpperFirstRefused` | arm64-session-2026-07-29/recipes/patch591.py:21-29 | a table with all sites in the file and a word that starts inside one listed after it is refused, whatever the binary |
| `NeedlePatch.UnclearFails` | arm64-session-2026-07-29/recipes/patch591.py:21-29 | for every other table with all sites in the file and a word of 589 that starts inside a listed word, a binary of calls only is taken by each recipe alone and refused by 591 after 589 |
| `NeedlePatch.AlignedClear` | arm64-session-2026-07-29/recipes/patch589.py:34 | tables of word-aligned sites meet the condition, if none is before the start of the file or the file ends on a word |
| `NeedlePatch.NullInPlace` | arm64-session-2026-07-29/recipes/patch589.py:34-41 | one site, in place: nulled, already nulled, refused or out of range |
| `NeedlePatch.Recipe` | arm64-session-2026-07-29/recipes/patch589.py:29-44 | the nested loops give the recipe's result, and nothing is written on a failure |
| `TouchChannel.ScanPrinted` | bridge-src/oh_input_bridge.cpp:1357-1358 | any number, printed and followed by anything but a digit, is scanned back |
| `TouchChannel.LineScans` | bridge-src/oh_input_bridge.cpp:1357-1372 | every tap and every drag scans back to the same numbers, two or four of them |
| `TouchChannel.LineFits` | arm64-session-2026-07-29/native-tools/touchfwd.c:55-63 | every command has at most 48 characters, so that neither 64-byte buffer cuts it |
| `TouchChannel.PollDispatches` | bridge-src/oh_input_bridge.cpp:1348-1380 | a poll after a command dispatches that gesture, and the next poll nothing |
| `TouchChannel.TabCommand` | bridge-src/oh_input_bridge.cpp:1367-1377 | a single number from 1 to 5 is a touch on that tab, 144 apart, and any other single number nothing |
| `TouchChannel.EachPolledCommandOnce` | bridge-src/oh_input_bridge.cpp:1348-1380 | for any interleaving of commands and polls exactly the commands polled before they were overwritten are dispatched, in order, once each |
| `TouchChannel.OverwrittenUnread` | arm64-session-2026-07-29/native-tools/touchfwd.c:24-31 | of any two commands with no poll between them only the second is dispatched |
| `TouchChannel.OneGesturePerDown` | arm64-session-2026-07-29/native-tools/touchfwd.c:40-68 | over every event sequence there is at most one command per touch-down |
| `TouchChannel.DispatchedAsMade` | arm64-session-2026-07-29/native-tools/touchfwd.c:40-67 | every gesture sent is what the events up to its end make of it, and is dispatched as such: a drag if and only if a start was noted that lies further than 48 from the last position along an axis, and then from that start to that position, else a tap there; the start is the position known at the gesture's last touch-down, or, if x was negative then, at the first report after it with x known |
| `TouchChannel.StartInTouchIff` | arm64-session-2026-07-29/native-tools/touchfwd.c:46-54 | both coordinates of the start were reported in the present gesture if and only if they came before its last touch-down, or x was negative then and y came before the start was noted; a coordinate that was not is the one at which the last gesture ended |
| `TouchChannel.StaleStart` | arm64-session-2026-07-29/native-tools/touchfwd.c:48 | a tap whose tracking id comes ahead of its position is sent as a drag from where the tap before it was |
| `TouchChannel.FarMoveAsTap` | arm64-session-2026-07-29/native-tools/touchfwd.c:54-63 | a move of more than 900 that begins at a negative x and ends before the next report is sent as a tap |
| `TouchChannel.Forward` | arm64-session-2026-07-29/native-tools/touchfwd.c:40-69 | the event loop sends exactly one text per gesture of the reference definition |

## Left out

- Hardware memory ordering and `membarrier`: sequentially consistent steps are assumed.
- JNI lookups, reference handling, logging and the exceptions they clear: no modelled meaning; application callbacks are events with arbitrary results.
- The size of the node pool: `kNumLocalGeneratedCodeRanges` is declared in a header that is not part of the repository, so the pool's size is a parameter.
- Signal handling around the range walk (thread state and lock checks before it, the probe blocks in `HandleSigsegvFault`): diagnostics and machine context.
- `onStartCommand` scheduling in `inproc_startService`: no shared state besides the create, which is modelled.
- The worker's 20-second deadline and its sleep: a timeout may come at any time.
- InprocQueue.NoClaimAfterDisconnect: speaks of claims and deliveries from the queue, with one class per connection id; whether anything is delivered after a disconnect, on any path and without that assumption, is in `InprocUnbind`.
- InprocBridge.BindQueue.WorkerRound: one round without interference, in a queue without duplicates; the interleavings are in `InprocQueue` and `InprocUnbind`.
- DexRewrite.LockStep: assumes that no replaced method differs from its helper in being void, which `DexRewrite.ExecRewrittenIff` shows to be needed and `DexRewrite.FrameworkKeepsVoidness` to be free for the framework tool.
- Other dex instructions than those the tools look at or emit: two families stand for them, arbitrary computations and arbitrary branches. Wide results, monitors and debug events are not modelled.
- DexPatches.PatchProxy: bodies whose last instruction needs a successor are excluded, as the dex format excludes them; insertion at the very end of a body is therefore not modelled.
- DexRewrite.RewriteFramework: a file is its method bodies, without class names, so that what the dex library does when the helper's classes are in the input already is not modelled.
- Choosing classes and methods in PatchProxy, PatchPI and PatchLog (`main`, `wanted`), and writing dex files: plumbing.
- Deletion from the traffic maps by user space, and kernel map errors other than an existing key or a full map.
- The permission and ring-buffer programs of `netsys-ebpf.c`.
- Asynchronous mode of the codec shim: the input queue is filled but not drained there, so ownership is a property of synchronous mode.
- CodecShim.OneOwnerIffCleanFlushes: the client returns only what it dequeued and makes no other call during a flush. Buffer indices from 2^31 on, which the client could not tell from the negative codes, are excluded.
- WindowTable.ForestOfDepthOne: sequential calls, and window ids that the service never reuses. Overflow of the client's own session counter is not modelled.
- Window geometry, focus, surface nodes and input subscription in `createSession`.
- A shown sub-window always having a shown parent: not an invariant of the code; `WindowTable.CoverKeptIff` gives the condition per step.
- The number of callee saves per instruction set: a parameter of `NterpFrame`; class-loader and access-flag tests of `CanMethodUseNterp`.
- FontPin.FontsStayMapped: one call at a time. Between the real `mmap` and the entry in the table nobody else knows the address; which paths count as fonts is a parameter.
- NeedlePatch.Patch591After589Iff: for a table with a site out of the file, which recipe 591 never takes, only one direction is given, by `NeedlePatch.Patch591After589`.
- TouchChannel.PollDispatches: a poll is one step, so that a command written between the poller's read and its truncation is not modelled; numbers that overflow `int` in hand-written commands, and the rounding of coordinates from 2^24 on to `float`, are not either.
- TouchChannel.DispatchedAsMade: `int` overflow of `x - downX` and `y - downY` (touchfwd.c:57), which takes coordinates more than 2^31 apart, is not modelled.
- EGL and hwui hooks, RenderService nodes, native windows, IME, sockets, proxies, probes, the sign-in script, `child_main.cpp`, `class_linker.cc`, `android_database_CursorWindow.cpp` and the remaining patch recipes: thin wrappers, fixed edits, or code whose other half is not in the repository.
