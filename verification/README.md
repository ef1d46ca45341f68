# Atlas: verified models

Atlas is a C++ engine with a scene editor, a lockstep network layer, an asset pipeline, a sound mixer, a
bulk hash, and a few Python scripts that write the files the engine reads. This project models those parts
in Dafny and proves what each is for. Where the original changes objects or buffers step by step there is a
class or a method with loops, tied by its contract to a function of the old state; the theorems are lemmas
about those functions. `dafny verify dfyconfig.toml` checks everything.

**Undoable edits** (`Forest`, `Scene`, `Commands`, `Reversal`, `Effects`, `EditCommand`, `History`,
`HistoryLaws`, `EditHistory`). Eleven commands over a forest of entities, each capturing its own
before-image; two stacks of commands with coalescing and a capacity. The reference is a history that keeps a
whole snapshot of the scene for every step it can return to. The machine of captured commands is shown to be
that reference in every run: undo gives exactly the previous scene, redo exactly the next, neither ever
fails, and a drag of any length is one step. Apart from that, what every command does to the scene is stated
outright: which one component, parent or subtree is different after it, and that nothing else is.

**The loopback star** (`Inbox`, `Loopback`, `Conservation`, `Accounting`, `Filing`, `Latency`, `TwoHops`,
`StarRelay`, `Survivors`, `Overflow`, `Agreement`, `HubLaws`, `LoopbackHub`). Pipes with latency,
reordering, one-shot faults and loss; a relay that forwards and files in one step; inboxes that stay shut
once they overflow. Under every fault and permutation messages are conserved, pipe by pipe and in the
counters, an inbox holds what its peer was handed, and latency is exact over both hops. Without faults or
reordering what a connector is handed is a prefix of what the relay emitted, all connectors are handed one
order, and once the survivors of a loss have polled often enough they all hold the same of the peer that is
gone, however the session goes on without it. On the mesh too a broadcast reaches everyone it should; what
each call and each fault does to which pipe is stated outright, and a hub that reorders can bring about any
order at all.

**The socket star** (`SocketHub`, `SocketStar`, `SocketOverflow`, `SocketLaws`, `EnetHub`). One process's
end of a star, the wire being reliable and ordered, under every interleaving of sends, receipts, losses and
timeouts, any packet of which the transport may fail to queue. A session loses peers, or ends when one goes,
as it is configured.

**The asset pipeline** (`AssetPipeline`, `AssetLaws`, `AssetRegistry`). Each section under a lock is one
step, taken by requesting threads, workers and the main thread in any order. One load is under way at a
time, every load lands, and an asset is usable only if its last load was an import.

**Hashes and cycles** (`WordHash`, `HashCollisions`, `HashVectors`, `StreamHash`, `Division`, `Sattolo`,
`Affine`). The four-lane hash and its streams, its freedom from near collisions, the values published for
them, Sattolo's shuffle, and the chain of affine steps found by squaring.

**Files** (`Bytes`, `Floats`, `Wav`, `WavLaws`, `Leb128`, `WasmModule`, `WasmLaws`, `Png`, `PngLaws`).
Writers and the decoders of the standards they write to: the RIFF/WAVE chapter of Multimedia Programming
Interface and Data Specifications 1.0, section 5 of the WebAssembly Core Specification, RFC 1951, RFC 1950
and RFC 2083; and rounding as in IEEE 754. What a reader and a writer could agree on and both have wrong is
stated of each apart: the bytes of a file, what its fields mean, and what its checksums are.

**The mixer** (`Mixer`, `MixerLaws`, `AudioDevice`). Voices summed over the reals into blocks; the stream
heard does not depend on how it is cut.

**Where comments and code differ, the code is followed.** `engine/net/src/loopback.cpp:242-243` and
`engine/net/src/enet_hub.cpp:544-546` say nothing reaches another peer that the relay has not filed itself.
Both relays forward a broadcast even when their own inbox refuses it: the loopback forwards first, the
socket hub goes on after the refusal has ended it. `Overflow.ReachesUnfiled` and
`SocketOverflow.ReachesUnfiled` are runs in which a connector files what the relay has not. When that can be
so is exact. The relay files a broadcast if and only if its inbox for that peer has not overflowed and has
room for it, and sends it on in either case (`FiledIffAccepted`). On the loopback every broadcast passed on
has been filed if and only if neither the first message the inbox refused nor any after it was one
(`Overflow.UnfiledIff`), and it stays so if and only if the inbox accepts the next one
(`Overflow.StaysFiledIff`); on the socket hub, which ends at that refusal, if and only if the message
refused was not one (`SocketOverflow.UnfiledIff`). What the survivors of a loss come to hold of the peer
that is gone is therefore every broadcast the relay was handed of it, which is what it filed unless its
inbox overflowed (`Survivors.SurvivorsHoldTheSame`).

## Model

| member | source | states |
|---|---|---|
| Histories.HistoryIsSnapshots | engine/edit/src/history.cpp:17-106 | after any run of apply, undo, redo, group breaks and clears, the scene is the snapshot the reference stands at, undo and redo succeed exactly when it has a previous or next one, the discard branches were never taken, and no more than capacity steps are kept |
| Histories.Run | engine/edit/src/history.cpp:17-106 | at the end of every run the two stacks still represent the line of snapshots |
| Histories.ApplyRefines | engine/edit/src/history.cpp:17-48 | a refused command leaves the whole history as it was; an accepted one is recorded as the scene it made, absorbed or pushed, evicting the oldest past capacity |
| Histories.UndoRefines | engine/edit/src/history.cpp:50-70 | undo gives exactly the previous scene and is refused only when there is none |
| Histories.RedoRefines | engine/edit/src/history.cpp:72-92 | redo gives exactly the next scene, its created identifiers being free again |
| Histories.UndoAllReachesOldest | engine/edit/src/history.cpp:38-70 | undoing everything reaches the scene beneath the oldest command not evicted |
| Histories.UndoThenRedo | engine/edit/src/history.cpp:50-92 | k undos and then k redos restore the scene and both stacks |
| Histories.DragContinues | engine/edit/src/history.cpp:28-36 | while a group is open every further edit of its property is absorbed: no new step, undo still leads to where the group began, and the scene is what the last edit alone makes of that |
| Histories.DragIsOneStep | engine/edit/src/history.cpp:28-47 | a drag of any number of edits, unless it goes on with an open group of its own property, is one undo step whose scene is that of the last edit alone and whose undo is the scene before the drag |
| HistoryLaws.AbsorbedIff | engine/edit/src/history.cpp:28-36 | an accepted command is absorbed exactly when it asks to be, a group is open and the newest command is of the same property of the same entity |
| HistoryLaws.ApplyDoes | engine/edit/src/history.cpp:17-48 | which stack entries a command changes, adds and drops, when a group opens, and that a refusal leaves no trace |
| HistoryLaws.UndoDoes | engine/edit/src/history.cpp:50-70 | one entry moves from the end of one stack to the end of the other, the group closes and the revision counts |
| HistoryLaws.RedoDoes | engine/edit/src/history.cpp:72-92 | the same the other way |
| HistoryLaws.NothingAbsorbedAfter | engine/edit/src/history.cpp:50-106 | after a break, an undo, a redo or a clear no command is absorbed into one before it |
| EditHistories.History.constructor | engine/edit/src/history.cpp:14-15 | an empty history with capacity at least one |
| EditHistories.History.ApplyCommand | engine/edit/src/history.cpp:17-48 | the object's apply is the machine's step; a null command is refused and changes nothing |
| EditHistories.History.KeepCommand | engine/edit/src/history.cpp:28-47 | merges into the newest command of an open group, or pushes, clears redo and evicts |
| EditHistories.History.Undo | engine/edit/src/history.cpp:50-70 | the object's undo is the machine's step |
| EditHistories.History.Redo | engine/edit/src/history.cpp:72-92 | the object's redo is the machine's step |
| EditHistories.History.Clear | engine/edit/src/history.cpp:102-106 | both stacks emptied and the group closed, the scene untouched |
| Reversal.NeverPartlyApplied | engine/edit/src/command.cpp:300-315 | a refused command leaves the scene as it was, and every outcome is a well-formed forest |
| Reversal.FirstApplicationLinks | engine/edit/src/command.cpp:36-446 | applying a new command captures what makes its revert restore the scene before exactly, and its re-application the scene after |
| Reversal.CreateIsWhole | engine/edit/src/command.cpp:330-352 | creation under a present parent never fails at the reparenting after it |
| Reversal.CreateLinks | engine/edit/src/command.cpp:330-366 | a created entity's redo finds its identifier free and rebuilds the same scene |
| Reversal.ReparentLinks | engine/edit/src/command.cpp:300-323 | reverting a reparent is never refused as a cycle and restores the parent |
| Reversal.DestroyLinks | engine/edit/src/command.cpp:372-446 | destroying a captured subtree and replaying the capture are inverse |
| Reversal.RestoreUndoesDestroy | engine/edit/src/command.cpp:415-446 | replaying the captured records after the cascading destroy rebuilds the identical forest, no create or set_parent being refused |
| Reversal.MergeLinks | engine/edit/src/command.cpp:56-204 | a merged command applied to the scene before the first gives the scene after the second, and its revert the scene before the first |
| Commands.CaptureIsSubtree | engine/edit/src/command.cpp:376-407 | the growing worklist records exactly the subtree, each entity once, as it stands, every parent before its children |
| Commands.WorklistFits | engine/edit/src/command.cpp:382-407 | the worklist never outgrows the subtree, so the loop over it ends on every forest |
| Commands.WorklistComplete | engine/edit/src/command.cpp:382-407 | a finished worklist holds an entity exactly when it is beneath the root |
| Effects.SetterDoes | engine/edit/src/command.cpp:36-285 | a component edit is accepted exactly when its entity is there and, for a first removal, has the component; then that component of that entity is the one given, or gone after a removal, and no other component, entity or identifier is different |
| Effects.SetterCaptures | engine/edit/src/command.cpp:36-285 | the first application captures the component as it was and later ones keep that |
| Effects.SetterReverts | engine/edit/src/command.cpp:48-285 | reverting gives the captured component back, and nothing else is different |
| Effects.ReparentDoes | engine/edit/src/command.cpp:300-316 | accepted exactly when both ends are there and the new parent is not the entity or beneath it; then that one parent is different |
| Effects.CreateDoes | engine/edit/src/command.cpp:330-352 | one bare entity of that name under that parent, the next identifier the first time and the same one on redo, all later identifiers above it; each refusal for its own reason |
| Effects.CreateReverts | engine/edit/src/command.cpp:354-366 | taking a creation back removes exactly what it made and what is beneath it |
| Effects.DestroyDoes | engine/edit/src/command.cpp:372-413 | exactly the entity and all beneath it are gone |
| Effects.MergeDoes | engine/edit/src/command.cpp:27-204 | a rename, a move or an animator edit absorbs exactly a later one of its kind and entity, to what the later one asks with what the earlier one captured |
| EditCommands.Command.ApplySetter | engine/edit/src/command.cpp:36-285 | the object's apply is the function's, which `Effects.SetterDoes` pins: the component given or removed, the before-image captured once |
| EditCommands.Command.ApplyReparent | engine/edit/src/command.cpp:300-316 | reparents, or is refused with the scene and the command unchanged |
| EditCommands.Command.ApplyCreate | engine/edit/src/command.cpp:330-352 | creates a new identifier the first time and the same one on redo |
| EditCommands.Command.CaptureSubtree | engine/edit/src/command.cpp:376-407 | the loop over a vector it appends to computes the breadth-first capture |
| EditCommands.Command.ApplyDestroy | engine/edit/src/command.cpp:372-413 | captures once, then removes the subtree |
| EditCommands.Command.Revert | engine/edit/src/command.cpp:48-366 | the revert of every command |
| EditCommands.Command.RestoreSubtree | engine/edit/src/command.cpp:415-446 | the records replayed in order, stopping at the first refusal |
| EditCommands.Command.Merge | engine/edit/src/command.cpp:27-204 | only renames, moves and animator edits of one entity absorb a later one |
| Scenes.Scene.Create | engine/scene/src/scene.cpp:203-214 | a new entity under an identifier never used before |
| Scenes.Scene.CreateWithId | engine/scene/src/scene.cpp:216-240 | refuses zero and identifiers in use, and keeps later identifiers above |
| Scenes.Scene.IsSelfOrDescendant | engine/scene/src/scene.cpp:94-109 | the recursive search through child lists decides exactly whether one entity is beneath another |
| Scenes.Scene.Detach | engine/scene/src/scene.cpp:71-88 | the child becomes a root and leaves its parent's list, and nothing else changes |
| Scenes.Scene.SetParent | engine/scene/src/scene.cpp:398-441 | checks existence and cycles before detaching, then attaches and keeps siblings ordered |
| Scenes.Scene.Destroy | engine/scene/src/scene.cpp:242-249 | removes exactly the subtree, or reports that there is none |
| Scenes.Scene.DestroyRecursive | engine/scene/src/scene.cpp:111-129 | destroying children one at a time, each removing itself from the list walked over a copy, removes the whole subtree |
| Forests.SetParentKeepsWellFormed | engine/scene/src/scene.cpp:412-422 | the new forest is acyclic exactly when the check accepts the parent |
| Forests.IncreasingUnique | engine/scene/src/scene.cpp:436-439 | a sibling list is determined by its members, so it carries no trace of the order of attachment |
| Inboxes.StreamIsPrefix | engine/net/src/inbox.cpp:7-39 | over any pushes and drains both bounds hold, what is drained and pending is a prefix of what was pushed, it is all of it exactly when nothing overflowed, and the counters add up |
| Inboxes.OfferDoes | engine/net/src/inbox.cpp:7-27 | a message is taken exactly when none was refused before, fewer than 256 wait and with it they come to no more than a mebibyte; after a refusal none is |
| Inboxes.CommandInbox.PushMessage | engine/net/src/inbox.cpp:7-27 | accepts within both bounds, and refuses for ever after the first refusal |
| Inboxes.CommandInbox.DrainAll | engine/net/src/inbox.cpp:29-40 | hands over everything pending and leaves the overflow mark |
| Conservation.EveryRunConserves | engine/net/src/loopback.cpp:50-259 | from the start of any hub, after every run, sent = dropped + delivered + refused + in flight + discarded by losing peers |
| Conservation.RunConserves | engine/net/src/loopback.cpp:154-259 | the same from any state in which it holds |
| Conservation.StepBalanced | engine/net/src/loopback.cpp:50-259 | every operation, with any faults and any permutation, keeps that balance |
| Conservation.DueAndKept | engine/net/src/loopback.cpp:213-223 | one pass splits a pipe into what is due and what stays, losing nothing |
| Accounting.EveryPipeAccounted | engine/net/src/loopback.cpp:154-257 | after every run, with any faults and any permutation, what came out of a pipe with what is in it is, as a multiset, part of what went in, and all of it unless one of its ends was lost |
| Accounting.CountersAgree | engine/net/src/loopback.cpp:250-255 | after every run the hub's delivered and refused figures are the sums of what the inboxes accepted and refused |
| Filing.EveryInboxHoldsHanded | engine/net/src/loopback.cpp:211-257 | after every run, with any faults, permutation and topology, what an inbox has filed is a beginning of what its peer was handed of that origin, in that order, and all of it exactly unless it overflowed; only one pipe hands it any |
| Latency.LatencyIsExact | engine/net/src/loopback.cpp:154-223 | every message put in flight, sent, broadcast, forwarded or damaged, and not dropped or held, is in its pipe, as it was put there, exactly until the receiver's (latency + 1)-th later pump, whatever else happens, reordering included |
| TwoHops.ForwardedOnTime | engine/net/src/loopback.cpp:211-257 | a broadcast due at the relay is passed on in that poll to every live connector but its origin, and the copy keeps its own latency exactly |
| TwoHops.BroadcastArrives | engine/net/src/loopback.cpp:130-257 | a connector's broadcast leaves for another on the relay's (latency + 1)-th poll and is in flight to it exactly until that one's (latency + 1)-th poll after |
| Latency.StepKeepsBelow | engine/net/src/loopback.cpp:154-195 | order numbers in a pipe stay below the next one |
| HubLaws.EnqueueDoes | engine/net/src/loopback.cpp:154-195 | a message is dropped, or enters at the end of its pipe held or with the last bit of its last byte flipped, exactly as armed; the fault is spent, each figure counts it, and no other pipe is touched |
| HubLaws.SendDoes | engine/net/src/loopback.cpp:101-128 | refused for exactly one of three reasons in their order, and otherwise met by its pipe alone; a sender that is gone sends nothing |
| HubLaws.MeshBroadcastDoes | engine/net/src/link.cpp:16-29 | on a mesh the answer is Ok if and only if none of the others is gone; exactly the others below the first that is gone have met the message, each in its own pipe, and no other pipe is touched |
| HubLaws.MeshBroadcastArrives | engine/net/src/link.cpp:16-29 | each of them is handed it on exactly its (latency + 1)-th poll after |
| HubLaws.StarBroadcastDoes | engine/net/src/loopback.cpp:130-152 | the relay's own broadcast is one message to every connector not gone, a connector's one to the relay marked for everyone, and no other pipe is touched |
| HubLaws.PumpDoes | engine/net/src/loopback.cpp:197-259 | of every pipe to a live peer exactly what is due is handed over, in the order sent unless the hub reorders, and the rest stays where it was |
| HubLaws.AnyOrderHanded | engine/net/src/loopback.cpp:211-257 | whatever is due of a pipe, some draws make a hub that reorders hand it over in any given order |
| HubLaws.ExchangesCounted | engine/net/src/loopback.cpp:225-239 | the reordered figure counts the exchanges that moved something, and none is counted exactly when every draw leaves its place alone |
| HubLaws.LoseDoes | engine/net/src/loopback.cpp:74-86 | every pipe to and from the lost peer is emptied and no other, and nothing armed is forgotten |
| HubLaws.HeldWaits | engine/net/src/loopback.cpp:58-64 | a held message stays where it was put until the release or the loss of an end of its pipe |
| HubLaws.ReleasedGoes | engine/net/src/loopback.cpp:58-64 | and goes in the next poll that finds it due after that |
| StarRelay.RunHolds | engine/net/src/loopback.cpp:74-257 | every run of a star without faults or reordering keeps the relay's invariant, losses included |
| StarRelay.HandedIsPrefix | engine/net/src/loopback.cpp:154-257 | what a connector has been handed is a prefix of the relay's emissions to it, and with what is in flight all of them |
| Agreement.ConnectorsAgree | engine/net/src/loopback.cpp:130-257 | two connectors, lost or not, have been handed third parties' messages in one and the same order; and, unless the relay sent something to one of them alone, the relay's own messages with them in that order |
| Survivors.SurvivorsHoldTheSame | engine/net/src/loopback.cpp:74-257 | once a peer is lost, whatever the others go on to send and whoever else is lost, survivors that have since polled more often than the latency hold one sequence from it: all of its broadcasts the relay was handed, which is exactly what peer zero filed of it when it sent peer zero nothing else; and the same of a peer not lost once the relay is left alone |
| Survivors.HoldsWhatWasTaken | engine/net/src/loopback.cpp:74-257 | with traffic and other losses going on, a survivor that has polled more often than the latency holds every broadcast the relay had been handed by then, and none it has not been handed |
| Survivors.EmittedIsTaken | engine/net/src/loopback.cpp:241-249 | what the relay has emitted of a peer's messages to a live connector is exactly the broadcasts of that peer it was handed, none left out |
| Survivors.HoldsTaken | engine/net/src/loopback.cpp:197-257 | at every moment a connector holds a beginning of those, cut short only by an overflow of its own inbox |
| Survivors.CatchesUp | engine/net/src/loopback.cpp:154-223 | more polls than the latency hand a connector all the relay had emitted to it before them |
| Survivors.PumpingEmpties | engine/net/src/loopback.cpp:197-223 | more polls than the latency, the relay left alone, empty a survivor's pipe |
| Overflow.FiledIffAccepted | engine/net/src/loopback.cpp:241-256 | peer zero files a broadcast if and only if its inbox has not overflowed and has room for it, and sends it to every live connector but its origin in either case |
| Overflow.UnfiledIff | engine/net/src/loopback.cpp:241-256 | in every reachable state peer zero has filed a beginning of what a peer handed it, all unless its inbox overflowed, and every broadcast passed on is filed if and only if none lies past that beginning |
| Overflow.StaysFiledIff | engine/net/src/loopback.cpp:241-256 | the next broadcast leaves that so if and only if the inbox accepts it |
| Overflow.ReachesUnfiled | engine/net/src/loopback.cpp:241-256 | a run from the start in which peer two files a broadcast that peer zero has not |
| LoopbackHubs.LoopbackHub.Enqueue | engine/net/src/loopback.cpp:154-195 | one message put in flight, an armed fault spent on it |
| LoopbackHubs.LoopbackHub.Send | engine/net/src/loopback.cpp:101-128 | every refusal in order; a lost sender's message goes nowhere |
| LoopbackHubs.LoopbackHub.Broadcast | engine/net/src/loopback.cpp:130-152 | once to the relay, or from the relay to each live connector |
| LoopbackHubs.LoopbackHub.SendToEach | engine/net/src/link.cpp:16-29 | on a mesh, a send to each peer but the sender, stopping at the first refusal; whom it reaches is `HubLaws.MeshBroadcastDoes` |
| LoopbackHubs.LoopbackHub.TakeDue | engine/net/src/loopback.cpp:211-239 | the due part of a pipe taken out in one pass and permuted as one batch |
| LoopbackHubs.LoopbackHub.Deliver | engine/net/src/loopback.cpp:241-256 | forwards first, then files |
| LoopbackHubs.LoopbackHub.Pump | engine/net/src/loopback.cpp:197-259 | every pipe to the peer, in order of sender |
| LoopbackHubs.LoopbackHub.Lose | engine/net/src/loopback.cpp:74-86 | the peer marked and both directions of its pipes emptied |
| LoopbackHubs.LoopbackHub.ArmFault | engine/net/src/loopback.cpp:50-56 | the next message on the pipe meets this fault |
| LoopbackHubs.LoopbackHub.ReleaseHeld | engine/net/src/loopback.cpp:58-64 | every held message may be delivered |
| SocketStar.RunKeeps | engine/net/src/enet_hub.cpp:211-558 | every interleaving of every process's events keeps the links' invariant |
| SocketStar.NeverEndsOverFraming | engine/net/src/enet_hub.cpp:504-535 | no reachable state ends a hub over the way a packet was framed |
| SocketStar.HoldsAPrefix | engine/net/src/enet_hub.cpp:504-558 | what a connector holds of another is a prefix of the broadcasts the listener took from it, which are a prefix of those it made; unless its inbox overflowed the listener filed all it took |
| SocketStar.HoldsThemAll | engine/net/src/enet_hub.cpp:504-558 | with nothing left on the wire between running, joined hubs, it holds every one |
| SocketStar.ConnectorsAgree | engine/net/src/enet_hub.cpp:544-557 | of a third connector's broadcasts two connectors hold one a prefix of the other |
| SocketStar.ListenerBroadcastIsWhole | engine/net/src/enet_hub.cpp:389-426 | a running listener's broadcast is never stopped half way by a closed connection: it succeeds exactly when every packet is queued, and then every connector not given up on gets it |
| SocketLaws.EndsAsConfigured | engine/net/src/enet_hub.cpp:453-501 | in every reachable state a session that does not drop peers has none lost and its listener runs only while every connection is open; one that does never ends the listener over a closed or silent connection, and has lost exactly the closed ones; a connector without the listener has ended |
| SocketLaws.GoneDoes | engine/net/src/enet_hub.cpp:453-473 | a closed connection is noted and shut, and the peer lost or the hub ended, as configured and by whom |
| SocketLaws.SilenceDoes | engine/net/src/enet_hub.cpp:487-501 | the same for silence, of an open connection of a running hub only |
| SocketLaws.SendDoes | engine/net/src/enet_hub.cpp:351-387 | seven reasons to refuse, the first that holds given, and otherwise one packet to the receiver and nothing else |
| SocketLaws.ConnectorBroadcastDoes | engine/net/src/enet_hub.cpp:389-426 | one packet to the listener, marked for everyone, or the first reason to refuse |
| SocketLaws.ListenerBroadcastDoes | engine/net/src/enet_hub.cpp:389-426 | one packet to each connector not lost, Sent if and only if all get it, and otherwise exactly those before the first that cannot |
| SocketLaws.ReceiveDoes | engine/net/src/enet_hub.cpp:504-558 | a misframed packet ends the hub unfiled; any other is offered to the inbox it names and no other, a refusal ending the hub; only a listener passes anything on, and only what is for everyone |
| SocketOverflow.FiledIffAccepted | engine/net/src/enet_hub.cpp:540-557 | a running listener files a broadcast if and only if its inbox has not overflowed and has room for it, and passes it to every other open connection in either case |
| SocketOverflow.UnfiledIff | engine/net/src/enet_hub.cpp:251-558 | in every reachable state some broadcast the listener took is missing from what it filed if and only if its inbox for that connector overflowed on a message marked for everyone |
| SocketOverflow.ReachesUnfiled | engine/net/src/enet_hub.cpp:504-558 | a run of three processes in which a connector files a broadcast the listener's full inbox refused |
| SocketHubs.IndexMessageInverts | engine/net/src/enet_hub.cpp:562-602 | a place is read back as announced exactly when it is a place in an allowed session |
| SocketHubs.OnlyIndexMessagesRead | engine/net/src/enet_hub.cpp:580-602 | nothing but such a message is read as one |
| EnetHubs.EnetHub.Send | engine/net/src/enet_hub.cpp:351-387 | every refusal in order, else one framed packet, queued or failed for want of memory or of room |
| EnetHubs.EnetHub.Broadcast | engine/net/src/enet_hub.cpp:389-426 | one packet marked for everyone, or one to each connector not lost, stopping at the first that fails |
| EnetHubs.EnetHub.Receive | engine/net/src/enet_hub.cpp:504-558 | framing checked, then filed, then forwarded, a refused filing or a failed forward ending the hub |
| EnetHubs.EnetHub.Forward | engine/net/src/enet_hub.cpp:547-557 | the loop over open connections, ended with the hub by the first copy that cannot be queued |
| EnetHubs.EnetHub.OnDisconnect | engine/net/src/enet_hub.cpp:453-473 | the object's step is the function's, which `SocketLaws.GoneDoes` pins: drops the connector or ends the hub, as configured |
| EnetHubs.EnetHub.OnSilence | engine/net/src/enet_hub.cpp:487-501 | the same for a passed deadline, at most once |
| AssetPipeline.OneLoadAtATime | engine/assets/src/registry.cpp:241-272 | in every run from the start an asset has one load under way while Queued or Loading and none otherwise, and every other load of it asked for has been applied |
| AssetPipeline.RunIsSound | engine/assets/src/registry.cpp:241-272 | in every interleaving an asset has exactly one load token while Queued or Loading, at the stage its state says, and none otherwise; and loads asked for, begun and applied add up |
| AssetPipeline.StepKeeps | engine/assets/src/registry.cpp:320-611 | each locked section keeps that, whoever takes it |
| AssetPipeline.MarkFindsQueued | engine/assets/src/registry.cpp:257-263 | a worker's mark finds its asset Queued, so a late Loading never overwrites Decoded |
| AssetPipeline.ApplyAllOutcome | engine/assets/src/registry.cpp:449-488 | each completion is applied to its own asset alone, once and in order; what it comes to is `AssetLaws.ApplyDoes` |
| AssetLaws.ApplyDoes | engine/assets/src/registry.cpp:447-512 | an import leaves its asset Decoded with that payload, size and time and no error, an error leaves it Failed with that reason and its earlier payload, and an asset none of whose loads finished has only waited |
| AssetLaws.OnlyImportsAreUsable | engine/assets/src/registry.cpp:241-611 | in every run an asset is Decoded or Ready only if the last load applied to it was an import, whose size, time and, until it is taken, payload it has |
| AssetLaws.AskDoes | engine/assets/src/registry.cpp:320-351 | one entry and one job for an asset not known, and nothing for one that is |
| AssetLaws.SettlingDoes | engine/assets/src/registry.cpp:533-562 | ready counts a load and clears the error, failed says why, and nothing else is different |
| AssetLaws.ReloadDoes | engine/assets/src/registry.cpp:564-611 | exactly the settled assets whose file is there and newer, or of no known time, get one job each and are otherwise as they were |
| AssetLaws.CacheCounted | engine/assets/src/registry.cpp:457-487 | hits are the textures decoded before, misses, where there is a cache, those decoded from their files; nothing else counts |
| AssetLaws.StallsCounted | engine/assets/src/registry.cpp:490-509 | the stalled figure counts each asset the pump reports, once |
| AssetPipeline.MarkReadyKeepsIff | engine/assets/src/registry.cpp:533-547 | calling an asset ready keeps the tokens right if and only if it is not in flight |
| AssetPipeline.MarkFailedKeepsIff | engine/assets/src/registry.cpp:549-562 | the same for failing it |
| AssetPipeline.TwoTokensIfReadyTooSoon | engine/assets/src/registry.cpp:533-611 | a concrete run in which marking a queued asset ready lets a reload give it a second token |
| AssetPipeline.StepLowers | engine/assets/src/registry.cpp:241-488 | without requests or reloads the measure never rises, and every step that moves a load lowers it |
| AssetPipeline.SomeStepMoves | engine/assets/src/registry.cpp:241-272 | while the measure is not zero some such step is enabled: no deadlock with at least one worker |
| AssetPipeline.LandedIff | engine/assets/src/registry.cpp:434-488 | the measure is zero exactly when every asset is Decoded, Ready or Failed |
| AssetPipeline.EveryLoadLands | engine/assets/src/registry.cpp:241-488 | from every reachable state, while nothing new is asked for, a run moves loads along at most as often as the measure says, and one that has done so that often or can go no further has every asset Decoded, Ready or Failed |
| AssetPipeline.LandingRun | engine/assets/src/registry.cpp:241-488 | and some run of no more steps than that brings every load in |
| AssetPipeline.LoadedOnceEach | engine/assets/src/registry.cpp:320-351 | by then every load asked for was begun once and applied once |
| AssetPipeline.StallsOnce | engine/assets/src/registry.cpp:490-509 | a decoded asset nobody claims is reported on its six hundred and first pump and never again |
| AssetRegistry.Registry.RequestEntry | engine/assets/src/registry.cpp:333-343 | an asset already known is not queued again |
| AssetRegistry.Registry.ApplyFinished | engine/assets/src/registry.cpp:447-512 | every completion applied in turn, textures counted as cache hits and misses, then every decoded asset's wait counted |
| AssetRegistry.Registry.CountWaits | engine/assets/src/registry.cpp:490-509 | the walk over the table, and the count of stalls it adds |
| AssetRegistry.Registry.PendingFinalisation | engine/assets/src/registry.cpp:514-531 | exactly the decoded assets, in order of identifier |
| AssetRegistry.Registry.ReloadChanged | engine/assets/src/registry.cpp:564-611 | exactly the settled assets whose file is newer are queued again and returned in order |
| AssetRegistry.Registry.Stats | engine/assets/src/registry.cpp:633-658 | each figure counts its states, and total = ready + failed + in progress |
| Sattolo.Shuffle | benchmarks/src/bench_machine.cpp:150-159 | for every sequence of draws the shuffle leaves one cycle through all nodes, each place exchanged with the one drawn below it |
| Sattolo.DrawsMatter | benchmarks/src/bench_machine.cpp:150-159 | draws that differ anywhere leave different cycles, so that each way to draw is a cycle of its own |
| Sattolo.Record | benchmarks/src/bench_machine.cpp:168-183 | the two checks fail exactly when the links are not one cycle, and else the visiting order is recorded |
| Sattolo.WalkWraps | benchmarks/src/bench_machine.cpp:184-203 | after any number of steps the walk stands where the recorded order says |
| Sattolo.EveryNodeVisited | benchmarks/src/bench_machine.cpp:168-180 | one cycle visits every node |
| Sattolo.SwapJoins | benchmarks/src/bench_machine.cpp:156-159 | one swap joins two of the disjoint cycles and leaves the others |
| Sattolo.Chase | benchmarks/src/bench_machine.cpp:144-208 | it dies exactly for a count of nodes it refuses outright: none of the three checks after that can fail |
| AffineMaps.ComposeIsAfter | benchmarks/src/bench_machine.cpp:212-221 | composing two maps modulo 2^64 composes what they do |
| AffineMaps.Power | benchmarks/src/bench_machine.cpp:223-234 | squaring gives the map that a walk of that many steps applies |
| AffineMaps.Chain | benchmarks/src/bench_machine.cpp:239-265 | the walked end always equals the closed form |
| WordHash.HashWords | benchmarks/src/bench_hash.cpp:113-121 | the word loop and the tail compute the word-wise hash, of words low byte first as `HashVectors.LoadInverts` says |
| WordHash.HashLanes | benchmarks/src/bench_hash.cpp:128-145 | the four accumulators, the combine and the tail compute the four-lane hash, each lane from its own words as `HashVectors.LanesAbsorb` says |
| HashVectors.LoadInverts | benchmarks/src/bench_hash.cpp:60-69 | an integer's eight bytes, low byte first, are loaded as that integer |
| HashVectors.WordsAbsorb | benchmarks/src/bench_hash.cpp:113-121 | so an integer fed at a word boundary is absorbed as itself |
| HashVectors.LanesAbsorb | benchmarks/src/bench_hash.cpp:128-145 | and of four side by side each lane absorbs its own |
| HashVectors.OneBlock | benchmarks/src/bench_hash.cpp:128-145 | the hash of one block of four integers, lane by lane |
| HashVectors.PublishedFnv | engine/core/tests/test_hash.cpp:115-121 | the published values of FNV-1a |
| HashVectors.Pangram | engine/core/tests/test_hash.cpp:157-162 | the value pinned for a text of one block and a tail |
| WordHash.TailContinues | engine/core/include/atlas/core/hash.hpp:98-111 | FNV-1a of text in two pieces, continued from a seed, is that of the whole |
| StreamHashes.StreamHash.Add | benchmarks/src/bench_hash.cpp:183-201 | adding a piece appends it to what has been fed, whatever was held |
| StreamHashes.StreamHash.Value | benchmarks/src/bench_hash.cpp:203-205 | the value is the one-shot word-wise hash of all that was fed |
| StreamHashes.StreamLanes.Add | benchmarks/src/bench_hash.cpp:218-236 | the same buffering for blocks |
| StreamHashes.StreamLanes.Value | benchmarks/src/bench_hash.cpp:238-244 | the value is the one-shot four-lane hash of all that was fed |
| StreamHashes.StreamedWords | benchmarks/src/bench_hash.cpp:378-401 | however a string is split, the stream gives the one-shot word-wise hash |
| StreamHashes.StreamedLanes | benchmarks/src/bench_hash.cpp:403-420 | and the one-shot four-lane hash |
| StreamHashes.Hasher.Add | engine/core/include/atlas/core/hash.hpp:127-148 | the engine's accumulator appends too |
| StreamHashes.Hasher.AddInteger | engine/core/include/atlas/core/hash.hpp:162-183 | an integer is fed as its bytes, low end first |
| StreamHashes.StreamedHasher | engine/core/include/atlas/core/hash.hpp:113-240 | however a string is split, the engine's accumulator gives the four-lane hash |
| StreamHashes.HashBytes | benchmarks/src/bench_hash.cpp:432-437 | the engine's one-shot hash is the measured candidate, on every input |
| HashCollisions.AbsorbIsBijection | benchmarks/src/bench_hash.cpp:82-89 | an absorb step can be undone from either side and reaches every value from either side |
| HashCollisions.MixIsBijection | benchmarks/src/bench_hash.cpp:103-110 | the final mix is a bijection of 64-bit words |
| HashCollisions.LanesWordMatters | benchmarks/src/bench_hash.cpp:128-145 | inputs of one length differing only inside one aligned word of the block region never share a four-lane hash |
| HashCollisions.LanesByteMatters | benchmarks/src/bench_hash.cpp:361-368 | changing any one byte changes the four-lane hash |
| HashCollisions.WordsWordMatters | benchmarks/src/bench_hash.cpp:113-121 | the word property for the one-chain hash |
| HashCollisions.WordsByteMatters | benchmarks/src/bench_hash.cpp:361-368 | the byte property for the one-chain hash |
| HashCollisions.TailByteMatters | benchmarks/src/bench_hash.cpp:72-89 | changing any one byte changes FNV-1a, and so any tail |
| Waves.ImportInvertsWriter | tools/gen_audio_assets.py:37-68 | every list of samples the writer can pack comes back as written, cut to whole frames, or is refused for exactly the limit it breaks |
| Waves.SampleInverts | engine/assets/src/wav.cpp:72-106 | an integer sample of each width decodes to the float nearest the fraction of full scale it stands for, exactly that fraction unless thirty-two bits are too many for a float, within [-1, 1] |
| Floats.RoundsToNearest | engine/assets/src/wav.cpp:99-102 | a whole number becomes a float than which none is nearer, with an even last bit where another is as near |
| Floats.TwentyFourBits | engine/assets/src/wav.cpp:99-102 | where whole numbers stop being floats, and which way the first ties go |
| Waves.UnknownChunkIsSkipped | engine/assets/src/wav.cpp:142-187 | a chunk not tagged "fmt " or "data", with its pad byte and a corrected RIFF size, put at any offset the walk visits, changes neither the audio nor the refusal |
| WavLaws.EveryFile | engine/assets/src/wav.cpp:142-187 | any bytes are some padded chunks and then no whole one |
| WavLaws.ImportDoes | engine/assets/src/wav.cpp:114-251 | of any file: refused unless it is RIFF sound and as long as it says, then for the first format chunk too small, then for a chunk past the end, then for want of a format or data chunk; else decoded from the last of each |
| WavLaws.FormatDoes | engine/assets/src/wav.cpp:155-178 | where the fields stand, the real tag of the extensible form among them |
| WavLaws.DecodeDoes | engine/assets/src/wav.cpp:196-250 | audio if and only if the format is one played, there is a whole frame and all of them fit; then every whole frame and no more, each sample from its own bytes |
| WavLaws.UnplayableFor | engine/assets/src/wav.cpp:196-218 | which fault of a format is found first |
| WavLaws.CutIsRefused | engine/assets/src/wav.cpp:127-131 | cut anywhere, a file as long as it says is refused |
| WavLaws.WrittenBegins | tools/gen_audio_assets.py:37-68 | every field a written file begins with, those the reader skips among them |
| WavLaws.CommentIs | tools/gen_audio_assets.py:58-66 | every byte of the comment a written file carries, padding included |
| Waves.WalkChunks | engine/assets/src/wav.cpp:142-187 | the walk by offsets ends on any bytes, reads none out of range, and finds what the chunks say |
| Waves.TagIs | engine/assets/src/wav.cpp:59-70 | the bytes are there and equal the tag |
| Waves.DecodeFrames | engine/assets/src/wav.cpp:239-250 | the nested loops put each decoded sample in its place |
| Waves.ImportWav | engine/assets/src/wav.cpp:114-251 | on any bytes, the whole reader |
| Leb128.UlebInverts | tools/gen_mods.py:82-91 | the decoder of section 5.2.2 gives back every value that fits its width, the rest untouched, and refuses every other |
| Leb128.SlebInverts | tools/gen_mods.py:94-103 | the same for signed values |
| Leb128.UlebIsShortest | tools/gen_mods.py:82-91 | no encoding the decoder accepts for a value is shorter |
| Leb128.SlebIsShortest | tools/gen_mods.py:94-103 | the same for signed values |
| WasmLaws.UlebDoes | tools/gen_mods.py:82-91 | the encoding's low seven bits, lowest first, are the value, and only its last byte is unmarked |
| WasmLaws.SlebDoes | tools/gen_mods.py:94-103 | the same in two's complement |
| Leb128.UlebPython | tools/gen_mods.py:82-91 | the Python loop writes the encoding |
| Leb128.SlebPython | tools/gen_mods.py:94-103 | the Python loop writes the signed encoding |
| Leb128.UlebWords | benchmarks/src/bench_script.cpp:108-117 | the C++ loop appends the same bytes for every 64-bit value |
| Leb128.SlebWords | benchmarks/src/bench_script.cpp:119-130 | the C++ loop appends the same signed bytes for every 64-bit value |
| WasmModules.ModuleInverts | tools/gen_mods.py:281-326 | a module under four gigabytes is read back exactly: sections in increasing order with exact sizes, each vector read to its end |
| WasmModules.BuiltModuleInverts | tools/gen_mods.py:281-326 | what is built for a mod is read back as that mod |
| WasmLaws.BuiltIs | tools/gen_mods.py:281-326 | every byte of a built module that its mod does not choose, and where what it chooses goes |
| WasmLaws.ImportIs | tools/gen_mods.py:293-296 | every byte of an import |
| WasmModules.ExportsHaveTheirTypes | tools/gen_mods.py:285-310 | each exported function leads to the type the host calls it with, and each import to its own |
| WasmModules.SectionsInvert | tools/gen_mods.py:111-112 | a list of sections to the end of the file is read back |
| WasmModules.VecInverts | tools/gen_mods.py:115-116 | a vector of readable items is read back, whatever follows |
| WasmModules.SegmentInverts | tools/gen_mods.py:320-323 | an active data segment with any 32-bit address is read back |
| WasmModules.ImportPayload | tools/gen_mods.py:293-296 | the loop over imports writes the vector of imports, each with its type |
| WasmModules.DataPayload | tools/gen_mods.py:318-324 | the loop over segments writes the vector of segments |
| WasmModules.BuildModule | tools/gen_mods.py:281-326 | the writer, section after section |
| Pngs.ZlibInverts | tools/gen_textures.py:63-83 | every payload, empty and multi-block ones included, is recovered and what follows is left alone |
| Pngs.FlippedIsComplement | tools/gen_textures.py:80 | a length and the same with every bit turned over make all ones, so the second is the complement the decoder asks for |
| Pngs.StoredRead | tools/gen_textures.py:74-81 | stored blocks are inflated back to the payload |
| Pngs.ChunkInverts | tools/gen_textures.py:86-87 | a chunk is read back, its checksum agreeing |
| PngLaws.AdlerIsSums | tools/gen_textures.py:82 | Adler-32 is its two closed sums modulo 65521 |
| PngLaws.CrcLinear | tools/gen_textures.py:86-87 | the register's steps are linear over the two-element field |
| PngLaws.TimesX | tools/gen_textures.py:86-87 | one step multiplies by x modulo the CRC's polynomial |
| PngLaws.CrcByteMatters | tools/gen_textures.py:86-87 | changing any one byte changes the CRC |
| PngLaws.CrcOfEnd | tools/gen_textures.py:86-87 | the checksum every PNG file ends with |
| PngLaws.BlockIs | tools/gen_textures.py:75-81 | each byte of a stored block's header |
| PngLaws.FileIs | tools/gen_textures.py:90-115 | how a file begins and ends, byte for byte |
| PngLaws.RowIs | tools/gen_textures.py:98-103 | each pixel is its red, green, blue and alpha, in that order |
| Pngs.PngInverts | tools/gen_textures.py:90-115 | every rectangular image is recovered pixel for pixel, and one with no columns is refused |
| Pngs.StoredDeflateBytes | tools/gen_textures.py:63-83 | the loop over slices writes the stored stream |
| Pngs.RawBytes | tools/gen_textures.py:98-103 | the nested loops write each row behind its filter byte |
| Mixer.CuttingDoesNotMatter | engine/audio/src/device.cpp:365-370 | however frames are cut into blocks, the stream is that of one uncut pass and the voices left to be heard, cursors and all, are the same |
| Mixer.CutsAgree | engine/audio/src/device.cpp:365-370 | any two cuts of the same number of frames agree |
| Mixer.PassKeepsSounding | engine/audio/src/device.cpp:111-127 | a pass loses no voice still to be heard, however many finish in it |
| Mixer.LoopsRound | engine/audio/src/mix.cpp:43-66 | a looping voice is at its frame count modulo its length |
| MixerLaws.PlaysOnce | engine/audio/src/mix.cpp:29-69 | a voice that plays once is heard frame by frame from its cursor to its clip's end and then no more: on each side its own sample of a stereo frame, or the one of a mono frame, times gain, volume and pan |
| MixerLaws.PlaysRound | engine/audio/src/mix.cpp:29-69 | a looping one goes round its clip for ever |
| MixerLaws.SumIs | engine/audio/src/device.cpp:105-130 | every voice is in the sum once, at its bus's gain |
| MixerLaws.FinishesIff | engine/audio/src/mix.cpp:29-69 | a voice finishes in a pass exactly if it has nothing to play, or plays once and runs out before the block does |
| MixerLaws.RetiredIs | engine/audio/src/device.cpp:111-127 | of those that finish the first sixty-four are retired, and all if there are no more |
| AudioDevices.AudioDevice.MixVoice | engine/audio/src/mix.cpp:29-69 | adds the voice's frames to the block and nothing else, advances it, and reports exactly whether it ran out |
| AudioDevices.AudioDevice.MixIntoBlock | engine/audio/src/device.cpp:105-130 | the block is the clamped sum of all voices, and at most sixty-four finished ones are retired |
| AudioDevices.AudioDevice.AdvanceBy | engine/audio/src/device.cpp:365-370 | the blocks of one update join into one stream |
| AudioDevices.AudioDevice.FillQueue | engine/audio/src/device.cpp:396-412 | the queue gets that same stream, is never filled past its maximum nor a block or more past its target, and reaches its target when nothing is refused and eight blocks suffice |

## Left out

- Scenes.Scene.Create: does not model the 64-bit wrap of the next identifier, since 2^64 creations do not happen; the same holds for revision and statistics counters.
- EditCommands.Command.Apply: virtual dispatch over command classes is one class over a datatype of edits, and a captured flag with its before-image is one optional value.
- Histories.HistoryIsSnapshots: the command passed to apply is one no history has held before, as its unique ownership in the original ensures.
- Scene features no command touches: animation poses, world transforms, drawing order, serialisation.
- Survivors.SurvivorsHoldTheSame: does not cover armed faults or reordering, which the relay's promise does not survive; conservation and latency are proved with both.
- LoopbackHubs.LoopbackHub.Deliver: inboxes are held as values in the hub rather than as separate objects; the class of its own in Inbox.dfy has the same steps.
- LoopbackHubs.LoopbackHub.TakeDue: the random stream is a parameter, any draw below its bound.
- SocketStar.RunKeeps: the socket library is a reliable ordered log, any packet of which may fail to be queued; accepting and connecting, pings and clocks are not modelled, loss and silence being steps that may come at any time.
- The session, its messages and the turn gate above the transports.
- AssetPipeline.RunIsSound: finalisers settle only decoded assets, as the ones in the repository do; shutting workers down and the artifact cache itself are left out, and reading and decoding a file is an arbitrary outcome.
- HashCollisions.LanesWordMatters: says nothing of inputs that differ in several words, where collisions exist; that swapping two words changes the hash holds only of the sample the benchmark checks.
- The block-parallel hash candidates, the avalanche measurement and all timing.
- Waves.ImportWav: samples already in floating point are kept as their bits; offsets are those of a 64-bit machine, on which the check for a chunk of no length cannot fire.
- Leb128.UlebPython: negative values, on which the Python loop does not end, are outside its domain; every caller passes a length or an index.
- WasmModules.BuildModule: instruction bytes are kept as they are given, and the decoder reads bodies without local declarations only, which is all that is written.
- Pngs.PngInverts: the decoder reads stored blocks and unfiltered eight-bit colour with alpha; a chunk of 2^31 bytes or more, which the writer would write, is refused as the format refuses it.
- Mixer.CuttingDoesNotMatter: arithmetic is over the reals and pan gains are given; when a finished voice leaves the pool does depend on the cut, so pools are compared on the voices still to be heard.
- Resampling, synthesis, clip and bus bookkeeping.
- Rendering, windows, input, logging, overlay and command-line plumbing.
