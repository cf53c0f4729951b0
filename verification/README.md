# Discomp, modelled and proved

Discomp is a job server: it hands the modules of multi-stage processes to worker nodes over its
own framed TCP protocol. This project models the parts of it in which many steps have to work
together, and proves what they keep.

**The scheduler.** The server is a state machine over values (`Entities`, `ProcessSteps`,
`ServerSteps`): every slot and command is one step, with the queue loop and the deletion of
processes nested inside it as in the program. `Ownership` and `OwnershipSlots` prove that every
step of a regular event keeps exclusive ownership of nodes; `Guarantees` says what ownership means
(no leaked node, one credit for each report) and proves that exactly these steps keep it.
`QueuePass` proves the queue loop greedy and ordered, and `Strays` when it leaves its vector.
`Runs` takes this to whole runs: stages in order in all of them, ownership up to the first
irregular event, no straying while no stage is over as it becomes current. `Progress` proves that
runs without new work come to rest, `Resting` what is left then, and `Stranding` how that comes
about; `Lists` proves list expansion exact, and `Sums` has the sums of the measures. `Jobs`,
`Effects` and `Reports` say what all of this does to the fields of modules, processes and nodes.
The classes of `Scheduler` do the same with fields and loops, each method proved against the
function on values.

**The wire protocol.** `Framing` is the incremental reader and proves it independent of how the
network cuts the stream, and `Skips` when that holds with messages in it that are skipped;
`MessageIds` sets the wrapping counter against the duplicate filter; `FileTransfer` is the file
queue and the handlers of requests and answers 10 and 11, and `Handlers` says what each of them
sends and keeps; `Transfers` proves that every file arrives over every run of two sockets;
`Delivery` and `Wires` carry that down to bytes on the wire. `Socket` is the class with its
fields. The XML text of a message is left to a printer and a parser that undo each other
(`Messages`).

**MD5.** `Md5Spec` is RFC 1321, sections 3.1 to 3.5, on whole messages; `Md5Transform` and
`Md5Contexts` prove the library's and the web server's streaming contexts against it, and against
each other, with the shifts of the length words done on words (`WordShifts`) and the order of
bytes and words said with arithmetic (`Md5Bytes`); `Digits` are the sixteen hexadecimal ones;
`FileDigest` proves what the strings made of digests compare, and `FileHosts` when a received file
is kept.

**Smaller parts.** `Checkpoints` (control points), `Archives` (module directories, archives and
updates, with `Listings` for what is then found where) and `HttpRequests` (cutting a kept-alive
connection into requests).

`dafny verify dfyconfig.toml` checks everything.

Where the program does not do what it promises, the code is modelled as it is and the exact
condition is proved:

- an end report with another code than 0 and 2, as for an undefined output parameter, frees the
  node while its module stays started (`EndFailureKeepsIffCoded`);
- a module stopped while one of its files is in flight: if the transfer fails, its node is free
  again while the module is still being stopped on it (`PrepareFailureKeepsIff`,
  `FailedTransferBreaksRun`), and the stop reply that follows is taken by whatever the node then
  does, without a look at the name (`StopReplyKeepsIff`);
- a module whose node is lost while it is being stopped stays so, and holds its process in its
  stage until somebody stops the process or asks for a stage (`StrandedForGood`);
- the queue loop can run past its vector when a finished process completes inside it. While every
  finished process has at most as many stages left as there are nodes to spare, it does exactly
  when the last process of the queue is finished (`StraysIffLastFinished`); with one finished
  process, whatever it has left, exactly when it is the last one and enough nodes are left free
  for it (`StraysIff`). A process with more stages left than nodes are free can make an earlier
  completion stray although the last process is not finished (`LongProcessStrays`); in a settled
  queue the stages left and the number of free nodes decide that too (`SettledQueueCountsDown`);
- only the first half of a file's MD5 sum is compared (`FileMd5ComparesHalf`, `FileIsKeptIff`);
- a skipped message makes the reader forget the beginning of a block (`SkipsLoseNothingIff`);
- a message that is too long still uses up its id, which can lose a whole cycle of messages
  (`NoneLostIff`), and an announcement that is too long leaves the sender busy for ever
  (`StuckIffTooLong`);
- a failed file check leaves the queue standing, and the next single file goes before it
  (`QueueIsFifoIff`, `FailedCheckBreaksFifo`);
- a resumed process repeats its finished modules, although the class comment in
  src/server/process_controlpoint.cpp says they stay done (`ResumeKeepsCreditIff`);
- a leftover CVS directory can make a module update impossible (`UpdateConvergesIff`);
- a control character in a request makes its fate depend on how it arrives
  (`ServedHoweverItArrivesIff`).

**Assumptions.** Theorems about ownership over runs assume regular events (`Regular`): a failed
end report has code 0 or 2, a failed transfer does not reach a stopping node whose module is still
claimed, and a stop reply names the module of its node. The code enforces none of the three;
`StepKeepsIff` and `RunsStayOwnedIff` say that ownership depends on them exactly. Theorems about
staying inside the vector assume lively events (`Lively`): no stage is over when it becomes
current, and a stop request leaves an unfinished module. What the code does enforce is `Enabled`.

## Model

| member | source | states |
|---|---|---|
| Runs.RunsStayOwned | src/server/server.cpp:443-926 | In every state of every run from the empty server up to its first irregular event: each running module lies in the current stage of its process and names a live busy node that names it back; each busy node that is not stopping runs a module of the process it names; free nodes run none |
| Runs.RunsStayOwnedIff | src/server/node.cpp:719-738 | A run that stays inside the vector keeps exclusive ownership throughout if and only if all its events are regular |
| Runs.LivelyRunsStayOwned | src/server/server.cpp:443-926 | With regular and lively events ownership holds in every state, none excluded |
| Runs.RunsDoNotStray | src/server/server.cpp:443-508 | When no stage is over as it becomes current and every stop request leaves an unfinished module, no step of a run leaves the vector, whatever else is reported |
| Runs.RunsRespectStages | src/server/process.cpp:557-691 | Over every run, irregular events and rewinding below the starting stage included: all stages a process has passed are done, nothing runs or is being stopped outside the current stage, and a process is completed only with all its stages, from the lowest it was in, done |
| Runs.StepInOrder | src/server/process.cpp:557-691 | Every slot and command keeps the stages of all processes in order |
| Runs.FailedTransferBreaksRun | src/server/node.cpp:719-738 | A run of five events from the empty server that ends with a free node on which a module is still being stopped |
| Guarantees.NoNodeLeaks | src/server/server.cpp:443-508 | With ownership, a live node that is busy and not stopping runs exactly one module, of the process and under the name it holds; any other live node runs none |
| Guarantees.NodeHasOneOwner | src/server/server.cpp:474-480 | A live node belongs to at most one running or stopping module over all processes |
| Guarantees.EndReportCreditsOne | src/server/process.cpp:1143-1178 | A success or time-out report that passes the name check credits exactly one module, a started one with the reported name, although the loop has no break; its branch for a wrong name is never taken |
| Guarantees.StopReplyCreditsAtMostOne | src/server/process.cpp:1143-1178 | A stop reply credits exactly the module that claims the node, stopping or, for a late reply, running, if it names it; it credits none if and only if no module of the process claims the node or the name is another |
| Guarantees.StepKeepsIff | src/server/server.cpp:443-962 | A step that stays inside the vector keeps exclusive ownership if and only if its event is regular |
| Guarantees.EndFailureKeepsIffCoded | src/server/server.cpp:746-784 | A failed end report keeps exclusive ownership if and only if its code is 0 or 2 |
| Guarantees.UndefinedOutputLeaksModule | src/server/node.cpp:971-981 | The code 1 sent for an undefined output parameter is a concrete case that breaks ownership |
| Guarantees.PrepareFailureKeepsIff | src/server/node.cpp:719-738 | A failed preparation keeps ownership if and only if its node is not stopping or no module of its process claims the node |
| Guarantees.FailedTransferLeaksModule | src/server/node.cpp:719-738 | A failed file transfer while the module is being stopped is a concrete case that breaks ownership |
| Guarantees.StopReplyKeepsIff | src/server/node.cpp:908-930 | A stop reply, to a stopping node or not, keeps ownership if and only if it names the module of the node or no module of the process claims the node |
| Guarantees.LateReplyLeaksModule | src/server/node.cpp:908-930 | A late stop reply to a node that runs another module by now is a concrete case that breaks ownership |
| OwnershipSlots.StepKeeps | src/server/server.cpp:443-962 | Every slot and command keeps exclusive ownership when the event is regular |
| Ownership.PassKeeps | src/server/server.cpp:443-508 | The queue loop, with processes completing and being deleted inside it, keeps ownership |
| Ownership.CheckStageKeeps | src/server/process.cpp:597-691 | The stage check keeps ownership whether the process stays, moves on or completes |
| Ownership.AskKeeps | src/server/process.cpp:923-980 | Asking a process for a job for a free node keeps ownership |
| OwnershipSlots.HandoffKeeps | src/server/process.cpp:986-1001 | Taking the module of a busy node out of execution leaves that node, and no other, in handover: busy, and claimed by no module of any process |
| OwnershipSlots.ClearNodeKeeps | src/server/node.cpp:1083-1100 | When a node in handover is cleared, ownership holds again |
| OwnershipSlots.BounceKeeps | src/server/server.cpp:576-626 | A failed preparation or start keeps ownership unless its node is stopping a module: the module waits again, the node is free |
| OwnershipSlots.CloseKeeps | src/server/server.cpp:706-736 | An end of execution keeps ownership through the credit, the stage check, a possible deletion of the process and the release of the node |
| OwnershipSlots.StopReplyKeeps | src/server/server.cpp:791-859 | Both stop replies keep ownership when they are regular: their process is gone, claims the node no more, or has the module they name |
| OwnershipSlots.NodeLostKeeps | src/server/server.cpp:211-228 | A lost node keeps ownership: its started modules wait again in every process |
| OwnershipSlots.ProcessStoppedKeeps | src/server/server.cpp:408-425 | Deleting a process in any state keeps ownership: every node that ran one of its modules is stopping or free |
| OwnershipSlots.StageRequestedKeeps | src/server/process.cpp:557-591 | Going back to a stage keeps ownership, over all stages reset on the way |
| OwnershipSlots.RewindFrees | src/server/process.cpp:564-584 | After going back, exactly the nodes of the started modules have been told to stop, and every other node is as before |
| OwnershipSlots.StopRequestedKeeps | src/server/process.cpp:762-830 | A stop request by name or list element keeps ownership: its started modules are being stopped and so are exactly their nodes |
| OwnershipSlots.ProcessArrivesKeeps | src/server/server.cpp:291-352 | A new process, which may complete at once, keeps ownership |
| OwnershipSlots.ModulesKeep | src/server/node.cpp:421-512 | A new list of modules of a node keeps ownership |
| QueuePass.QueueIsGreedyAndOrdered | src/server/server.cpp:449-508 | With no current stage finished at entry, the queue loop ends with no free node for which any process has a ready first eligible module, and a node goes to a process only if every earlier one had nothing for it |
| QueuePass.PassStays | src/server/server.cpp:449-508 | Under the same condition no process completes inside the loop and it stays within the vector |
| Strays.NoneFinishedStays | src/server/server.cpp:449-476 | Whatever the queue: with no process finished, that is with its current and all later stages over, the loop completes none and stays within the vector |
| Strays.StraysIffLastFinished | src/server/server.cpp:449-476 | Any queue with any number of finished processes, each with no more stages left than there are nodes to spare, that is free nodes beyond what the others could take: the loop indexes the vector past its end if and only if the last process is finished |
| Strays.LastUnfinishedStays | src/server/server.cpp:449-476 | The half that stays inside: with such processes and the last one not finished, the loop from any point on ends with all finished processes gone and every index in place |
| Strays.LastFinishedStrays | src/server/server.cpp:449-476 | The other half: with the last process finished and nodes to spare for it the loop strays, whatever the other processes have left |
| Strays.AskKeepsSpare | src/server/process.cpp:923-980 | No question to a process takes away from the nodes to spare |
| Strays.SettledQueueStraysIff | src/server/server.cpp:449-476 | In a queue whose unfinished processes have no job for a free node, all free nodes are to spare: the same condition with their number |
| Strays.SettledQueueStrays | src/server/server.cpp:449-476 | There the stages left of all but the last process do not matter for straying |
| Strays.LongProcessStrays | src/server/server.cpp:449-476 | A queue of three, the last not finished, in which a process with two stages left outlives its first question and a later one completes: with one free node the loop goes past the end |
| Strays.SettledQueueCountsDown | src/server/server.cpp:449-476 | In any settled queue the loop does what a loop on numbers does: whether it strays depends on the stages its finished processes have left and the number of free nodes alone |
| Strays.StraysIff | src/server/server.cpp:449-476 | With one finished process anywhere in the queue, whatever it has left: if and only if it is the last one and the processes before it leave at least as many nodes free as it has stages left |
| Strays.SettledStraysIff | src/server/server.cpp:449-476 | When nothing is offered to a free node and the last process alone has finished since: if and only if at least as many nodes are free as it has stages left |
| Strays.StopBeforeStartStrays | src/server/process.cpp:762-794 | A process whose only module was stopped before it ran is such a case |
| Jobs.QueueHandsOut | src/server/server.cpp:449-508 | Of the fields: with no stage over at entry every module is as it was, or it waited and now runs on a node that was free and has it unfailed, its inputs there, with no waiting module before it that the node could take; every node is as it was, or runs such a module under its name and process number |
| Jobs.NoJobIsLeft | src/server/server.cpp:449-508 | Of the fields: no free node is left for a waiting module it has unfailed and whose inputs are there, unless an earlier waiting module it has unfailed lacks its inputs |
| Jobs.JobIsTheFirst | src/server/process.cpp:923-980 | Of the fields: after the stage check a process gives a node its first waiting module that the node has unfailed, list module or not, if its inputs are there, and nothing else changes; otherwise nothing does |
| ServerSteps.PassRelates | src/server/server.cpp:443-508 | Induction over the queue loop: what every question to a process respects holds between the servers before and after |
| Effects.RewindMeans | src/server/process.cpp:557-587 | Of the fields: every module of every stage from the requested to the current one waits on no node, and the other stages are as they were |
| Effects.StageRequestMeans | src/server/process.cpp:557-591 | The process is in the requested stage, expanded, or in the next one if that has nothing to do, and complete if there is none; all stages after that, up to the one it was in, wait again; exactly the busy nodes that ran their modules are told to stop |
| Effects.StopByNameMeans | src/server/process.cpp:762-794 | Of the fields: exactly the modules of that name are stopped if they wait and being stopped if they run, and exactly the nodes that ran one are told to stop, if the process they hold is known |
| Effects.StopListModuleMeans | src/server/process.cpp:796-830 | The same for the list elements with that name and number |
| Effects.ReportMeans | src/server/server.cpp:706-859 | Whatever the stage check and the queue do then, the reported module is done after an end or a stop, and stopped when its time was up, for good |
| Reports.ReportsInOrder | src/server/server.cpp:706-859 | An end, a time-out and a successful stop credit exactly the unfinished modules of that name on the node, check the stage, and then free the node and check the queue; a failed stop frees the node first, so that a completion in between may give it out |
| Reports.ReleaseMeans | src/server/server.cpp:746-859 | An end report with another code, and a stop reply whose process is gone, only free the node and check the queue |
| Reports.DroppedMeans | src/server/server.cpp:542-859 | Other reports to a node that is gone or whose process is unknown change nothing |
| Reports.CommandsDropped | src/server/process.cpp:557-562 | Nor do commands for an unknown process or for a stage it has not reached |
| Reports.NodesMean | src/server/node.cpp:421-512 | A new list of modules replaces the old one with none failed, and the queue is checked; clearing the marks clears all of them and nothing else |
| Effects.FailureMeans | src/server/server.cpp:576-626 | A failed preparation, start or end without output: the modules on the node wait, the node is free with the first entry of the name barred, nothing else changes, and the queue is checked |
| Effects.DifferentFilesMean | src/server/server.cpp:596-608 | When the module files differ the same without a bar and without a look at the queue |
| Effects.MarkFailedMeans | src/server/node.cpp:1101-1113 | Exactly the first entry of the name is marked |
| Effects.LossMeans | src/server/server.cpp:211-228 | In every process exactly the modules running on the lost node wait on none; the node is gone |
| Effects.ArrivalMeans | src/server/server.cpp:291-352 | A process that comes is the last of the queue with the next number, in its first stage or, when that is over, the next, expanded; it is refused exactly if there is none; the number is used in both cases |
| Effects.DeletionMeans | src/server/server.cpp:408-425 | The process is out of the queue, the others in order, exactly the busy nodes that ran its modules are told to stop |
| Effects.CheckMeans | src/server/process.cpp:597-691 | A process stays exactly while some module of its stage is neither done nor stopped; then it is in the next one, expanded and with nothing else changed, or complete in the last |
| Progress.ClosedStepDescends | src/server/server.cpp:664-784 | Without new nodes, processes, rewinding, clearing of marks and differing module files, every step changes nothing or decreases a lexicographic measure of stages, unfinished modules, usable pairs, statuses and busy nodes |
| Progress.ClosedRunsComeToRest | src/server/server.cpp:443-784 | Every endless run of such steps, ownership and equipped nodes asked of its first state only, comes to a point after which nothing changes |
| Progress.ClosedStepStays | src/server/server.cpp:443-784 | Such steps keep ownership and named modules and descend |
| Progress.EndlessRunStays | src/server/server.cpp:443-784 | Every state of an endless run of such steps is owned, and its nodes equipped |
| Resting.FairRunsLeaveOnlyStranded | src/server/server.cpp:211-228 | If every busy node answers some time, an endless run of such steps comes to a state that stays: no node is busy, and every module still running or being stopped is being stopped on a lost node |
| Resting.AnswerMoves | src/server/server.cpp:664-859 | A final answer of a busy node always changes the server |
| Stranding.StepStrandsIff | src/server/server.cpp:211-228 | With ownership, a step leaves a module stopping without a node that was not so before if and only if it is the loss of the node that is stopping it |
| Resting.LostNodeStrands | src/server/process.cpp:986-1001 | A node lost while it stops a module leaves the module stopping without a node |
| Resting.StrandedForGood | src/server/process.cpp:986-1001 | In every run such a module stays as it is, and its process in its stage, until the process is stopped or one of its stages asked for |
| Progress.BounceDescends | src/server/node.cpp:1101-1113 | A failed start descends because it bars the module from the node |
| Lists.RebuildIsExact | src/server/process.cpp:837-905 | With no empty list the expansion yields one module for each element 0 to n-1 of every list, counts included, leaves other modules as they were, and changes nothing the second time |
| Lists.RebuildExpandsAll | src/server/process.cpp:837-905 | Each list module becomes its first element in place, and the other elements follow list by list at the end of the vector |
| Lists.RebuildStopsAtEmpty | src/server/process.cpp:856-868 | The first empty list marks its module done and leaves all later lists unexpanded |
| Lists.HeadsAreThere | src/server/process.cpp:837-905 | Of the fields: every list module is in its own place as element 0, and every other module as it was |
| Lists.ElementsAreThere | src/server/process.cpp:837-905 | Of the fields: every further element of every list waits behind them, on no node |
| Lists.EmptyListEnds | src/server/process.cpp:856-868 | The first list module without elements, or without a list, is done; those before it are expanded and those behind it are as they were |
| ProcessSteps.ExpansionShrinks | src/server/process.cpp:837-905 | The loop over the growing vector ends: each expansion leaves fewer unexpanded lists |
| ProcessSteps.FirstEligible | src/server/process.cpp:935-952 | The number of the first waiting module the node has and has not failed |
| Scheduler.DiscompNode.ClearNodeState | src/server/node.cpp:1083-1100 | The node is free: not busy, not stopping, no process, no module |
| Scheduler.DiscompNode.AddFailedModule | src/server/node.cpp:1101-1113 | The first module of that name, and no other, is marked failed |
| Scheduler.DiscompNode.ClearFailedModules | src/server/node.cpp:1126-1134 | No module is marked failed |
| Scheduler.DiscompProcess.RebuildStageModulesForParallelList | src/server/process.cpp:837-905 | The in-place loops compute the expansion on values |
| Scheduler.DiscompProcess.CheckCurrentStageIsDone | src/server/process.cpp:597-691 | The process stays, moves to its next stage expanded, or completes |
| Scheduler.DiscompProcess.GiveJobToNode | src/server/process.cpp:923-980 | The first eligible module is given to the node if it is ready; otherwise nothing, or the process completes |
| Scheduler.DiscompProcess.ClearJobOnNode | src/server/process.cpp:986-1001 | Exactly the started modules of the node wait again |
| Scheduler.DiscompProcess.CreditModule | src/server/process.cpp:1143-1178 | Exactly the unfinished modules of that node and name get the new status |
| Scheduler.DiscompProcess.StopModulesSelected | src/server/process.cpp:762-830 | Waiting modules selected become stopped, started ones stopping, and the nodes of the latter are signalled in order |
| Scheduler.DiscompProcess.Destruct | src/server/process.cpp:69-104 | The nodes of the started modules are signalled in order |
| Scheduler.DiscompProcess.RewindTo | src/server/process.cpp:557-587 | All stages from the given to the current one wait again; the nodes of started modules are signalled in order |
| Scheduler.DiscompServer.GetProcessNumById | src/server/server.cpp:1003-1013 | The first process with the id, or none |
| Scheduler.DiscompServer.CheckProcessQueue | src/server/server.cpp:443-508 | The nested loops, with re-entry through a completed process, compute the pass on values |
| Scheduler.DiscompServer.OfferNode | src/server/server.cpp:466-508 | One question: the node is taken, nothing changes, or the process is deleted and the queue checked again |
| Scheduler.DiscompServer.ProcessFinished | src/server/server.cpp:867-884 | The completed process is deleted and the queue checked again |
| Scheduler.DiscompServer.PrepareModuleFailedSlot | src/server/server.cpp:576-626 | The job is cleared; unless the module files differ the module is barred and the queue checked |
| Scheduler.DiscompServer.StartModuleFailedSlot | src/server/server.cpp:664-699 | The job is cleared, the module barred, the node freed, the queue checked |
| Scheduler.DiscompServer.EndModuleSuccessSlot | src/server/server.cpp:706-736 | The module is done, the stage checked, the node freed, the queue checked |
| Scheduler.DiscompServer.EndModuleFailedSlot | src/server/server.cpp:746-784 | As for a failed start with code 0, stopped by time with code 2, and only a freed node with any other |
| Scheduler.DiscompServer.StopModuleSuccessSlot | src/server/server.cpp:791-821 | The stopped module is credited, the node freed, the queue checked |
| Scheduler.DiscompServer.StopModuleFailedSlot | src/server/server.cpp:829-859 | The same with the node freed first |
| Scheduler.DiscompServer.NodeDisconnectedSlot | src/server/server.cpp:211-228 | Every process clears its jobs on the node, and the node is gone |
| Scheduler.DiscompServer.StartProcess | src/server/server.cpp:291-352 | The process is expanded, checked and queued, or refused when it has nothing to run |
| Scheduler.DiscompServer.StopProcess | src/server/server.cpp:408-425 | The nodes of started modules are told to stop, the process is deleted, the queue checked |
| Scheduler.DiscompServer.GotoStage | src/server/process.cpp:557-591 | The process waits again from the given stage on, expanded; nodes of started modules are told to stop; the stage is checked |
| Scheduler.DiscompServer.StopModuleOnNodeSlot | src/server/server.cpp:937-962 | The node is stopping if it is live and busy with a known process |
| Scheduler.DiscompServer.StopModule | src/server/process.cpp:762-794 | The modules selected and their nodes |
| Scheduler.DiscompServer.ClearFailedModulesForNodes | src/server/server.cpp:986-992 | No node has a barred module |
| Framing.HeaderRoundTrip | src/lib/socket.cpp:348-352 | The four-digit header of any size up to 0xFFFF is read back as that size |
| Framing.HeaderDigits | src/lib/socket.cpp:348-352 | The four bytes of the header are small digits, the highest first, that spell the size |
| Framing.ParseMeans | src/lib/socket.cpp:461-473 | Four bytes read as a header are the number they spell, or 0 if one is no digit |
| Framing.DigitValueMeans | src/lib/socket.cpp:469 | Small letters and capitals are digits, and nothing else is |
| Framing.SkippedMeans | src/lib/socket.cpp:549-584 | Skipped is exactly a block of type S that is no message, or one whose number is above 1 and not above the last; the number of any other message is the last one then |
| Delivery.ParcelOnWire | src/lib/socket.cpp:316-361 | On the wire: the size in four digits, the letter S and the text of a message with its id, or the letter B and file data |
| Delivery.SentIff | src/lib/socket.cpp:322-345 | A parcel is sent unless letter and data are more than 65535 bytes; a message takes the next number, after 32769 the number 1, either way |
| Framing.FramesSurviveDelivery | src/lib/socket.cpp:458-542 | A stream of frames of 1 to 0xFFFF bytes, none skipped, cut into any deliveries: the reader hands over exactly those blocks, in order, and holds exactly the unfinished rest |
| Framing.CutsDoNotMatter | src/lib/socket.cpp:458-542 | However a stream is cut into deliveries the reader ends in the same state |
| Framing.ReadInTwo | src/lib/socket.cpp:475-499 | Reading what has come and then the rest is reading everything at once |
| Framing.OneDelivery | src/lib/socket.cpp:458-599 | One delivery of whole frames and the beginning of another: all blocks but the skipped ones are handed over in order, and the beginning is kept unless a block was skipped and the delivery reached into its body |
| Framing.SkipIsHarmlessIff | src/lib/socket.cpp:537-582 | After one skipped message the reader is where the rest of the delivery alone would put it if and only if the delivery does not end inside the body of a block |
| Skips.SkipsLoseNothingIff | src/lib/socket.cpp:458-599 | Any stream of frames, any of them skipped, in any deliveries: after each delivery exactly the completed blocks that are not to be skipped are handed over and exactly the beginning of the next frame is held, if and only if no delivery that completes a skipped message ends inside the body of a block |
| Framing.SkipLosesBlock | src/lib/socket.cpp:559-582 | A block that arrives with a skipped message is handed over when whole and lost when its last byte comes later |
| Framing.EmptyBlockStalls | src/lib/socket.cpp:477-492 | A header of zero makes the reader leave the rest for the next delivery |
| Framing.NothingSkippedKeepsAll | src/lib/socket.cpp:576-584 | The blocks handed over are all blocks if and only if none is skipped |
| MessageIds.CounterCycles | src/lib/socket.cpp:325-331 | The k-th message has the id k modulo 32769, plus 1 |
| MessageIds.FreshMessagesAccepted | src/lib/socket.cpp:577-584 | However often the ids wrap, and with messages that are too long anywhere but at the start of a later cycle, every message that is sent is accepted |
| MessageIds.NoneLostIff | src/lib/socket.cpp:325-346 | Whatever messages are too long: nothing sent is lost if and only if each message sent starts a cycle or has a higher id than the last one sent before it |
| MessageIds.NoneLostIffStartsFit | src/lib/socket.cpp:325-346 | If only starts of later cycles can be too long: if and only if all of them fit |
| MessageIds.CycleIsLost | src/lib/socket.cpp:342-346 | A start of a later cycle that is too long makes the filter reject every message of that cycle |
| MessageIds.ReplayRejectedIff | src/lib/socket.cpp:577-583 | A message that comes again is rejected if and only if it is not the first of its cycle and its place has been reached again |
| MessageIds.CurrentCycleReplayRejected | src/lib/socket.cpp:577-583 | In the current cycle: if and only if its id is above 1 |
| FileTransfer.QueueIsFifoIff | src/lib/socket.cpp:675-1064 | Over every run of a sender with all forms of sendFile and any answers, failed checks included: the files announced followed by those queued are at all times the openable files requested, in order and each once, if and only if no single openable file is requested while the sender is idle and files with another announcement wait |
| FileTransfer.QueueIsFifo | src/lib/socket.cpp:675-888 | That holds whenever all checks succeed, and then nothing waits unless the sender is busy |
| FileTransfer.FailedCheckBreaksFifo | src/lib/socket.cpp:1052-1056 | Four events that break it: a file waits behind one whose check fails, and a third is requested |
| FileTransfer.WaitsIff | src/lib/socket.cpp:1039-1064 | The events after which files may wait while nothing is sent: exactly a failed check with files in the queue, and a go-ahead that finds it so already |
| FileTransfer.PrepareAccounts | src/lib/socket.cpp:839-888 | One request keeps the order if and only if it is in turn |
| FileTransfer.CheckQueueAccounts | src/lib/socket.cpp:792-888 | The recursion over files that cannot be opened announces the first that can and moves no other |
| FileTransfer.FileOvertakesIff | src/lib/socket.cpp:839-888 | After a failed check the next single file overtakes the queue if and only if it can be opened; otherwise the queue moves on and nothing is lost |
| Handlers.CheckRequestMeans | src/lib/socket.cpp:993-1032 | The answer to a check is 1 exactly if the sum of what is stored is the one asked about; otherwise it is 0 and the file is removed; nothing else is sent when no file waits |
| Handlers.CheckDecides | src/lib/socket.cpp:993-1064 | Both sides: after a stored content with another sum the sender announces nothing more, whatever waits; after one with the same sum it announces the next file it can open |
| Handlers.CheckAnswerMeans | src/lib/socket.cpp:1039-1064 | The sender is free; the queue is looked at exactly after answer 1 |
| Handlers.FileRequestMeans | src/lib/socket.cpp:897-948 | A request to take a file is answered 1 and the file is there empty and open, or 0 and no file has changed |
| Handlers.GoAheadMeans | src/lib/socket.cpp:369-443 | The bytes of the file go out in order in blocks of 16384, the last one of 1 to 16384, then the request to check its sum |
| Handlers.RefusalMeans | src/lib/socket.cpp:956-974 | A refused file is given up and the queue looked at |
| Handlers.QueueMeans | src/lib/socket.cpp:792-888 | The first file of the queue that can be opened is announced with its name, directory and size; those before it are dropped, those behind it wait |
| Handlers.SendFileMeans | src/lib/socket.cpp:839-888 | A single file waits behind a busy socket and is announced at once by a free one |
| Handlers.DataMeans | src/lib/socket.cpp:522-535 | File data is appended to the open file, and dropped without one |
| Transfers.EveryFileArrives | src/lib/socket.cpp:839-1064 | Over every run of two sockets, one sending: it is busy if and only if something is under way; otherwise the receiver's disk and reports are those of sending all files asked for in order, and both sides are free |
| Transfers.CheckSucceeds | src/lib/socket.cpp:993-1032 | The whole file is there when the check arrives, so the sums agree |
| Transfers.MoveKeeps | src/lib/socket.cpp:608-657 | Every request for files and every parcel handled keeps the state of the transfer |
| Transfers.DeliveriesAreCounted | src/lib/socket.cpp:839-1064 | A run has at most as many deliveries as its files take, and exactly as many once nothing is under way |
| Transfers.FileIsThere | src/lib/socket.cpp:522-535 | A file no later one replaces is on the receiver's disk byte for byte |
| Transfers.OtherFilesStay | src/lib/socket.cpp:932-947 | Files nobody sent are as they were |
| Transfers.CutFlat | src/lib/socket.cpp:380-399 | The pieces of 1 to 16384 bytes a file is read in make up the file |
| Transfers.OneIsMany | src/lib/socket.cpp:675-699 | While nothing waits, the two forms of sendFile do the same |
| Delivery.BlocksAreParcels | src/lib/socket.cpp:316-361 | Parcels that fit become blocks that a receiver with the sender's last id decodes to the same parcels, none skipped, wrapped ids included |
| Delivery.CarryDelivers | src/lib/socket.cpp:458-542 | Any number of bytes carried hands over exactly the parcels now complete, in order, and keeps what follows |
| Delivery.SendCarries | src/lib/socket.cpp:316-361 | Sending appends to what a connection carries |
| Wires.EveryByteArrives | src/lib/socket.cpp:316-1064 | Over every run, in whatever pieces the bytes arrive: the sender is busy if and only if a wire holds bytes, and when none does every file asked for is stored, its sum agreed and both sides free |
| Wires.StuckIffTooLong | src/lib/socket.cpp:342-346 | A free sender that announces a file is stuck, busy with nothing on the wire, if and only if the announcement does not fit into a block |
| Wires.StuckStays | src/lib/socket.cpp:845-852 | Whatever is asked or carried later, it stays stuck and sends nothing |
| Socket.DiscompSocket.SendDataToRemoteHost | src/lib/socket.cpp:316-361 | The message is numbered, framed and written, or too long: numbered and dropped |
| Socket.DiscompSocket.SendBinaryDataToRemoteHost | src/lib/socket.cpp:369-443 | The file goes out in 16K blocks followed by the check request, and is closed |
| Socket.DiscompSocket.SendFiles | src/lib/socket.cpp:688-699 | All files are queued and the first that can be opened is announced |
| Socket.DiscompSocket.PrepareForSendFileToRemoteHost | src/lib/socket.cpp:839-888 | Queued while busy; otherwise announced, or the queue is looked at when the file cannot be opened |
| Socket.DiscompSocket.CheckFileSendingQueue | src/lib/socket.cpp:792-818 | The next file of the queue is announced unless busy |
| Socket.DiscompSocket.ReceiveFileRequestFromRemoteHost | src/lib/socket.cpp:897-948 | The file is created empty and the answer is yes, or the answer is no and the queue is looked at |
| Socket.DiscompSocket.SendFileRemoteHostReady | src/lib/socket.cpp:956-974 | The file is sent, or given up and the queue looked at |
| Socket.DiscompSocket.ReceiveFileFromRemoteHostDone | src/lib/socket.cpp:993-1032 | The file is kept if the sums agree and removed if not; the answer says which, the socket is free, the queue is looked at |
| Socket.DiscompSocket.SendFileRemoteHostDoneCheck | src/lib/socket.cpp:1039-1064 | The socket is free; the queue is looked at only after success |
| Socket.DiscompSocket.ProcessMessage | src/lib/socket.cpp:608-657 | Every message reaches its handler |
| Socket.DiscompSocket.WriteBinary | src/lib/socket.cpp:522-535 | The bytes are appended to the file being received |
| Socket.DiscompSocket.ReadPart | src/lib/socket.cpp:460-487 | The header if none is known, then as many bytes of the block as there are |
| Socket.DiscompSocket.HandOver | src/lib/socket.cpp:501-542 | The block is handled, or the reader reads on from inside a skipped message |
| Socket.DiscompSocket.ReadDataFromRemoteHost | src/lib/socket.cpp:458-542 | The reader's fields change as the reader on values does, and every block handed over is handled in order; the recursion ends |
| Socket.DiscompSocket.ReadyRead | src/lib/socket.cpp:226-229 | A delivery: the same with the bytes that have come in |
| Socket.DiscompSocket.ProcessDataFromRemoteHost | src/lib/socket.cpp:549-599 | Unparsable and duplicated messages are skipped, others handled |
| Md5Contexts.LibraryContext.Update | src/lib/md5.cpp:101-135 | After any call the context stands for all bytes seen: state of the full blocks, rest in the buffer, 64-bit count in two words |
| Md5Contexts.LibraryContext.Final | src/lib/md5.cpp:141-171 | The digest of RFC 1321 of all bytes seen, with one or two padding blocks and the length modulo 2^64 |
| Md5Contexts.LibraryContext.CountBytes | src/lib/md5.cpp:106-112 | Two 32-bit words count modulo 2^64, with carry |
| Md5Contexts.LibraryContext.Pad | src/lib/md5.cpp:144-161 | The state after all blocks but the last, and the 56 bytes of that one |
| Md5Contexts.LibraryContext.LengthWords | src/lib/md5.cpp:163-165 | Shifts and or on 32-bit words give the length in bits modulo 2^64 from a count in bytes |
| WordShifts.OrOfShifts | src/lib/md5.cpp:163-165 | The or of the two shifted words is their sum: the bits do not overlap |
| Md5Contexts.MongooseContext.Update | src/httpserver/httpserver_mongoose.c:1563-1606 | The same for the second implementation, which counts bits |
| Md5Contexts.MongooseContext.Final | src/httpserver/httpserver_mongoose.c:1612-1652 | The same digest of RFC 1321 |
| Md5Contexts.MongooseContext.CountBits | src/httpserver/httpserver_mongoose.c:1568-1575 | Two 32-bit words count bits modulo 2^64, with the carry and the bits shifted out |
| Md5Contexts.MongooseContext.Lead | src/httpserver/httpserver_mongoose.c:1577-1592 | The odd-sized beginning is buffered, or completes a block |
| Md5Contexts.MongooseContext.Pad | src/httpserver/httpserver_mongoose.c:1618-1642 | The state after all blocks but the last, and the 56 bytes of that one |
| Md5Contexts.ContextsAgree | src/httpserver/httpserver_mongoose.c:1563-1652 | After the same bytes both contexts hold the same state and buffer, and the bit count is 8 times the byte count modulo 2^64 |
| Md5Contexts.Simulate | src/httpserver/httpserver_mongoose.c:1563-1652 | The same chunks in the same order give both the digest of RFC 1321 |
| Md5Bytes.WordsMean | src/lib/md5.cpp:124-131 | A block is read in words of four bytes: the first counts once, the second 256 times, and so on |
| Md5Bytes.DigestMeans | src/lib/md5.cpp:168-170 | The digest is the bytes of the four words of the last state, the low-order one first |
| Md5Bytes.LastBlockMeans | src/lib/md5.cpp:144-166 | After the message come 0x80 and as few zeros as make the length 56 modulo 64, then the length in bits modulo 2^64 in two words, the low-order one first |
| Md5Contexts.CountCarries | src/lib/md5.cpp:108-110 | The low word has wrapped exactly when it ends up smaller |
| Md5Contexts.BitCountCarries | src/httpserver/httpserver_mongoose.c:1570-1573 | The same for the bit counter |
| Md5Contexts.PaddingSpills | src/lib/md5.cpp:153-159 | With more than 55 bytes in the buffer the padding takes another block |
| Md5Transform.Transform | src/lib/md5.cpp:192-274 | The 64 unrolled in-place steps compute the block function of RFC 1321 |
| Md5Transform.AllOperations | src/lib/md5.cpp:192-274 | The four rounds of sixteen steps are the 64 operations of the standard |
| Md5Transform.StepIsOperation | src/lib/md5.cpp:183-185 | One macro step is one operation of the standard |
| Md5Transform.OptimizedF | src/lib/md5.cpp:175-178 | The optimized first function is the standard one |
| FileDigest.GetMD5 | src/lib/file.cpp:416-458 | The string of a file read in 16K blocks: sixteen digits that spell the first eight bytes of its digest |
| FileDigest.CvtHex | src/lib/md5.cpp:38-63 | All 32 digits, high half first, are written and the seventeenth is overwritten with NUL |
| FileDigest.HexSpells | src/lib/md5.cpp:44-60 | Every byte is two digits of its value by their place in 0 to 9 and a to f, high half first |
| FileDigest.HashFile | src/lib/file.cpp:423-454 | The digest of the whole content |
| FileDigest.FileMd5ComparesHalf | src/lib/file.cpp:451-457 | Two files have the same string if and only if the first eight bytes of their digests agree |
| FileHosts.FileIsKeptIff | src/lib/socket.cpp:993-1032 | A received file is kept, whatever it holds, if and only if the first halves of the digests of what was sent and of what is stored agree |
| FileDigest.MgMd5 | src/httpserver/httpserver_mongoose.c:1675-1692 | Thirty-two digits that spell the digest of the concatenated arguments |
| FileDigest.HexIsOneToOne | src/httpserver/httpserver_mongoose.c:1659-1669 | Different bytes have different digits |
| Checkpoints.WorkedIsOnPlan | src/server/process.cpp:550-691 | Whatever happens to a process started from its plan, resumes from any control point included, its current stage has the modules its plan expands to |
| Checkpoints.SaveMeans | src/server/process_controlpoint.cpp:87-124 | Saved are the stage and of every module its name, whether it is stopped, and the number of a list element |
| Checkpoints.ResumeMeans | src/server/process_controlpoint.cpp:144-252 | A resume succeeds exactly if names, and numbers of list elements, fit as far as there are records and modules; then the modules have the statuses of their records and nothing else of the plan changes; otherwise the process starts over in its first stage, expanded, with all modules of the saved stage waiting |
| Checkpoints.ResumeRestores | src/server/process_controlpoint.cpp:144-252 | Saved after anything that may have happened to it, earlier resumes included, and resumed from its plan, a process is in the same stage with the stopped modules stopped and all others to be done again, and saving it again writes the same file |
| Checkpoints.ResumeKeepsCreditIff | src/server/process_controlpoint.cpp:107-113 | What was over is over again after resuming if and only if no module of the stage had finished by itself |
| Checkpoints.ResumedIsOnPlan | src/server/process_controlpoint.cpp:144-252 | A process resumed from any control point, its own or not, or started over because the records do not match, has the modules of the plan |
| Checkpoints.FailedResumeCreditsNothing | src/server/process_controlpoint.cpp:205-247 | A resume succeeds if and only if all records match; if not, the process starts over with nothing credited |
| Checkpoints.DiscompProcessControlPoint.Create | src/server/process_controlpoint.cpp:87-124 | The file holds the current stage and one record for each module, unless the subsystem was not started |
| Checkpoints.DiscompProcessControlPoint.Resume | src/server/process_controlpoint.cpp:144-252 | The walk over the file computes the resume on values |
| Checkpoints.DiscompProcessControlPoint.ResetModulesState | src/server/process_controlpoint.cpp:264-270 | Every module of the current stage waits |
| Scheduler.DiscompProcess.JumpToTheStage | src/server/process.cpp:550-555 | The given stage is current and expanded |
| Archives.UpdateConvergesIff | src/lib/file.cpp:517-729 | Packing a directory, clearing the copy and unpacking succeeds if and only if no file is in the way of what clearing leaves; then both list the same files with the same content and have the same sum |
| Archives.DirSumsAgreeIff | src/lib/file.cpp:465-480 | Two directories have the same sum exactly if they list the same paths with the same file sums, in order, whatever the digest, as long as neither mark occurs in them |
| Archives.SamePathsSumsAgreeIff | src/lib/file.cpp:465-480 | With the same paths, of any characters, and sums of one length: exactly if the file sums agree |
| FileHosts.DirectoriesAgreeIff | src/lib/file.cpp:416-480 | For the sums the program takes: exactly if the paths agree and the first halves of the digests of all files |
| Archives.UpdateOfPlainCopy | src/lib/file.cpp:306-339 | A copy in which clearing leaves nothing always converges |
| Archives.CvsInTheWay | src/lib/file.cpp:321-331 | A file in the place of a directory that holds a CVS directory does not |
| Archives.UnarchivePacked | src/lib/file.cpp:557-567 | The header of an archive is found and read back |
| Archives.UnpackPuts | src/lib/file.cpp:655-726 | Unpacking writes exactly the packed files, from the right place of the archive, or stops at the first that cannot be written |
| Archives.PutCleared | src/lib/file.cpp:664-713 | Written into a cleared directory, the files of a list are what it then lists |
| Archives.GroupsMakeList | src/lib/file.cpp:737-773 | The listing depends only on the files under each name |
| Archives.ClearClears | src/lib/file.cpp:306-339 | Nothing that would be listed is left, in order |
| Archives.GetFilesList | src/lib/file.cpp:737-773 | The recursive walk lists all files but those under CVS, in order, with their paths |
| Archives.RecursiveRemoveDirectoryContent | src/lib/file.cpp:306-339 | What is called CVS stays at every level, with the directories above it |
| Archives.GetDirMD5 | src/lib/file.cpp:465-480 | Path and sum of each listed file, in order |
| Archives.CopyBlocks | src/lib/file.cpp:688-705 | The bytes asked for, as far as there are any |
| Archives.CreateArchive | src/lib/file.cpp:517-598 | Header size, header and the content of all files; nothing for an empty list |
| Archives.ModuleDirectory.ExtractArchive | src/lib/file.cpp:607-729 | The loop over the items computes unpacking on values, failures included |
| Listings.ListedIff | src/lib/file.cpp:737-773 | Listed is exactly what is a file and has no CVS on its path, with its content and permission |
| Listings.ListAscends | src/lib/file.cpp:737-773 | Paths are listed in order, each once |
| Listings.ClearedFileIff | src/lib/file.cpp:306-339 | A file is left by clearing exactly if something on its path is called CVS, and then as it was |
| Listings.ClearedIff | src/lib/file.cpp:306-339 | Anything is left by clearing exactly if something on its path or below it is called CVS |
| Listings.PutWrites | src/lib/file.cpp:664-713 | A file is written exactly if no file is on the way to it and no directory in its place; then it has its content, is executable if it is to be or was, and nothing else has changed |
| Listings.PackMeans | src/lib/file.cpp:517-598 | An archive is the size of the header in four digits, the header, and the contents of the files in order |
| Listings.ShortFails | src/lib/file.cpp:688-705 | An archive too short for the sizes in its header is never unpacked to the end |
| Listings.BadHeaderFails | src/lib/file.cpp:607-653 | Nothing is unpacked of an archive of less than five bytes or without a readable header |
| HttpRequests.LenIsFinalIff | src/httpserver/httpserver_mongoose.c:1254-1271 | A result stands whatever bytes follow if and only if it is the length of a request |
| HttpRequests.LenMeaning | src/httpserver/httpserver_mongoose.c:1254-1271 | The result is the end of the first empty line; without one, -1 if a control character comes before the last byte and 0 otherwise |
| HttpRequests.RequestLenMeans | src/httpserver/httpserver_mongoose.c:1254-1271 | Of the bytes: the least length that ends with an empty line; without one -1 if a byte before the last is below 32 and no line end, or is 127, and otherwise 0 |
| HttpRequests.RequestsMean | src/httpserver/httpserver_mongoose.c:3518-3566 | The requests of a stream are cut one behind the other, each the least beginning that ends with an empty line, of 16384 bytes at most; each can be parsed, all but the last allow others to follow, and after them comes none that can be parsed, unless the last closes |
| HttpRequests.ServesFirstOnes | src/httpserver/httpserver_mongoose.c:3518-3566 | However a stream arrives and whatever is in it, what is handed over are requests of the stream, from the first on |
| HttpRequests.ArrivalOfOneIff | src/httpserver/httpserver_mongoose.c:1254-1271 | A request is recognised at the same place however much of the stream has arrived if and only if it has no control character |
| HttpRequests.ArrivalDoesNotMatter | src/httpserver/httpserver_mongoose.c:3519-3566 | A stream none of whose requests has a control character is cut into the same requests however it arrives, whatever follows them |
| HttpRequests.BytesAreConserved | src/httpserver/httpserver_mongoose.c:3497-3566 | Requests handed over, buffer and bytes not yet arrived make up the stream |
| HttpRequests.ControlCharacterDecides | src/httpserver/httpserver_mongoose.c:1261-1264 | A request with a control character is served when it comes whole and refused when its last byte comes later |
| HttpRequests.ServedHoweverItArrivesIff | src/httpserver/httpserver_mongoose.c:3519-3566 | For every stream: it is cut into its requests however it arrives if and only if none of them has a control character |
| HttpRequests.GetRequestLen | src/httpserver/httpserver_mongoose.c:1254-1271 | The loop over the buffer computes the length on values |
| HttpRequests.Connection.ReadNext | src/httpserver/httpserver_mongoose.c:2227-2244 | Bytes are pulled until a request is complete or bad, the buffer full or the stream ended |
| HttpRequests.Connection.ShiftToNext | src/httpserver/httpserver_mongoose.c:3496-3516 | The rest of the buffer moves to its beginning |
| HttpRequests.Connection.ProcessOne | src/httpserver/httpserver_mongoose.c:3526-3564 | One request is handed over and taken out of the buffer, or the connection ends |
| HttpRequests.Connection.ProcessNewConnection | src/httpserver/httpserver_mongoose.c:3518-3569 | The loop hands over the requests of the connection, in order |

## Left out

- JavaScript processes: their clearing and time-out handlers are empty, so exclusive ownership is not theirs.
- Callbacks of process plugins, which may rewind a process in the middle of a handler: rewinding and stopping are steps of their own.
- Threads, timers, logging, e-mail, statistics and calls from the RPC thread: every handler is one atomic step.
- Signals between objects: a method returns what it signals, in order, and the caller handles it at once, as a direct connection does.
- Readiness of input parameters and sizes of lists: looked up for a process and a module name, unchanged during one step.
- The look at get_completed in src/server/server.cpp:453-460: no process of this kind is still in the queue with that flag set.
- A completion inside giveJobToNode deletes the process that is still executing it; the model takes it that no job comes out of that call.
- StepKeeps: irregular events, with which the program breaks ownership; StepKeepsIff says so for every one. What a server does after ownership is broken is left open, but for the order of stages.
- RunsStayOwned: the same, and the state in which the loop has left its vector.
- StraysIff: one finished process. Several are covered by StraysIffLastFinished while none has more stages left than there are nodes to spare, and by SettledQueueCountsDown in every settled queue; several of which one has more, in a queue that still takes nodes, are not covered.
- SettledStraysIff: one finished process, at the end; SettledQueueStraysIff and SettledQueueCountsDown are for any number.
- SettledQueueStrays: the straying direction; SettledQueueStraysIff has both.
- NodeDisconnectedSlot: a node that is gone already changes nothing; the program reads its name for the log first.
- Names taken twice and bad directories in startProcess, negative stage numbers, and the code for single tasks.
- Signs, blanks and a prefix in the four digits of a frame or archive header: they count as no number.
- XML text, of messages, control points and archive headers: a printer and a parser that undo each other.
- Queue entries that are not made of three strings.
- Transfers in both directions at once, clearing the queue, aborting a file, closing and reopening a connection, and progress counters.
- Messages sent and bytes read while a handler waits for its own bytes to be written.
- EveryByteArrives: announcements, answers and check requests fit into a block with every id; StuckIffTooLong is the other case.
- Removal of the incoming directory from absolute names of incoming files: the host tells where a name is stored and whether it is allowed.
- Byte order conversion, which does nothing on little-endian hosts, and clearing the MD5 context after use.
- SkipIsHarmlessIff: one skipped message and one delivery; SkipsLoseNothingIff is for any number of both.
- NoneLostIffStartsFit: a special case of NoneLostIff, which has no such condition.
- Control point files with a stage or status no process has, and the unused check of the plan's sum.
- Hidden files, links and permissions other than to execute, and files that cannot be read or removed.
- UpdateConvergesIff: headers of archives up to 0xFFFF bytes; directories are listed in the order of names by character.
- CreateArchive: headers of archives up to 0xFFFF bytes, the largest that four digits hold; for a longer one the program replaces text at a negative position.
- Requests with a body, SSL, and everything the handlers of the web server do.
- Round-robin archives, sensors, the expert system, web pages, command-line clients and CGI.
