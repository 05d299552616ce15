# Verified models of small systems programs

These Dafny modules model the state machines and algorithms of a collection of C programs and
prove what they are for:

- a mailbox service added to the MINIX process manager: bounded mailboxes with sender and receiver
  lists, messages that each carry the receivers still to be served, and senders that are suspended
  when a mailbox is full, flagged by a retrieval and replayed by the main loop (`Mailbox*.dfy`);
- four multi-threaded programs as step systems over all schedules: dining philosophers with and
  without chairs, the cigarette smokers, the one-thread-per-element merge, and the row-sliced matrix
  product (`Diners.dfy`, `DinersPlain.dfy`, `Smokers.dfy`, `ThreadMerge*.dfy`, `MatrixMultiply.dfy`);
- in-place merge sort, heap sort and duplicate removal (`MergeSort.dfy`, `HeapSort.dfy`,
  `DuplicateRemoval.dfy`);
- a chained hash table and a shell's command splitter with its pipe joiner (`HashTable.dfy`,
  `ShellPipes.dfy`).

`dafny verify dfyconfig.toml` checks everything.

The mailbox files build on each other. `MailboxModel` has the service as functions on a state,
`MailboxServer` the process manager as a class whose methods compute those functions,
`MailboxInvariant` what every step keeps, `MailboxRefinement` the proof that suspension and replay
act as unbounded queues, `MailboxDelivery` what that means for every receiver, `MailboxSpent` when
messages leave, `MailboxAnswers` that every call is answered once, `MailboxAccess` what opening and
closing grant and withdraw, and `MailboxRules` what each call does, stated apart from the functions.

## Assumptions and repairs

The mailbox model follows the structure of `mailbox.c` and the intent its comments state. It keeps
as written: saving a suspended call at the tail, flagging all senders of one mailbox at once,
replaying the first flagged record, draining before receiving, checking the mailbox limit before the
name, and reading the mailbox id before the saved request is restored. It repairs these slips of
the C text (lines of `mailbox.c`):

- list heads are passed by value, so appending to an empty list or removing its head is lost
  (96-107, 283-313); head removals elsewhere do not rewrite the head (568-595, 822-827); and an empty
  list is dereferenced (288);
- fresh records are not cleared before their lists are read (141, 371), and `_tmp` is uninitialised
  when no message is found (556): the model answers `Nothing`;
- three loops do not advance (357-423, 746-754, 660-661), and `getMailbox` stops before the last
  mailbox (879-885);
- a closed mailbox is freed but stays linked (249-253);
- the receivers of a replayed deposit are copied again from whoever called last (354); in the model
  they are part of the saved request (458);
- an accepted deposit ends without a return value (431-432); in the model it replies `Ok`.

About the surroundings: a request comes from an existing process that is not suspended, as the
kernel ensures; process ids are distinct; `m3_i1` and the field `mailboxId` are the same slot of a
request, which the source relies on when it saves a deposit's id (332, 455); the text and the
receivers of a request are those the copy calls would fetch. Message texts are arbitrary strings.

About the other programs: constants are parameters (philosophers, chairs, rounds, matrix size,
threads, and the 15 elements of `rm_duplicate`). Condition variables have no spurious wake-ups, and a
signal nobody waits for is lost. Integers are unbounded except in the hash, which is 32 bits wide
over signed characters. The hash table starts with all buckets empty, where the loop at line 37 of
`Hash_table_ex.cpp` misses bucket 0 and writes one past the end. Merge sort's copy to `left - 1` is
not made when `left` is 0. The splitter's look at the character before an empty piece
(`grsParser.c` line 52) sees no space, and the joiner builds a new string where `grsPipes.c` (16, 24)
writes into a literal.

## Model

| member | source | states |
|---|---|---|
| MailboxInvariant.BlockedMeansFull | Minix_Mailbox_implementation/Mailbox_SourceCode/servers/pm/main.c:68-77 | after any legal list of requests from start-up, when the loop is about to receive: nobody is flagged, at most 5 mailboxes with distinct names and distinct ids below the last issued one, at most 5 messages in each, and every suspended deposit names a live mailbox that is full |
| MailboxRefinement.ServiceIsIdeal | Minix_Mailbox_implementation/Mailbox_SourceCode/servers/pm/mailbox.c:337-418 | over every legal list of requests from start-up the replies are those of mailboxes with unbounded queues of which only the first five messages can be collected and where a deposit beyond the fifth says so; so flagging and replay are invisible, and no later sender overtakes a suspended one |
| MailboxRefinement.RunRefines | Minix_Mailbox_implementation/Mailbox_SourceCode/servers/pm/main.c:68-157 | from any state about to receive, the service and the unbounded queues stay in step over every run, state and replies |
| MailboxDelivery.DeliveredOnceInOrder | Minix_Mailbox_implementation/Mailbox_SourceCode/servers/pm/mailbox.c:554-614 | over every run, for a mailbox open at its end and any receiver: what was owed, followed by the texts of the deposits that were taken, is exactly what it collected, followed by what is still owed, in order; nothing is lost, repeated or reordered, suspended or not |
| MailboxDelivery.DeliveredFromStart | Minix_Mailbox_implementation/Mailbox_SourceCode/servers/pm/mailbox.c:388-410 | the same from start-up, where nothing is owed |
| MailboxSpent.SpentAreEmptyDeposits | Minix_Mailbox_implementation/Mailbox_SourceCode/servers/pm/mailbox.c:583-598 | over every legal run from start-up, a mailbox still open holds exactly as many messages without a receiver as deposits to it that listed none; so a message deposited for somebody leaves exactly when its last receiver has it, whatever else was deposited |
| MailboxSpent.SpentIffEmptyDeposit | Minix_Mailbox_implementation/Mailbox_SourceCode/servers/pm/mailbox.c:388-410 | so a mailbox holds a message that nobody has to collect if and only if a deposit to it listed no receiver |
| MailboxSpent.JammedForGood | Minix_Mailbox_implementation/Mailbox_SourceCode/servers/pm/mailbox.c:362-419 | five such messages at the front fill a mailbox for good: in every run that leaves it open no deposit to it is accepted and nobody collects anything from it |
| MailboxSpent.ServeKeepsSpent | Minix_Mailbox_implementation/Mailbox_SourceCode/servers/pm/main.c:139-157 | in a mailbox that stays open only a deposit without receivers adds a message nobody has to collect, and none ever leaves |
| MailboxSpent.TakeKeepsSpent | Minix_Mailbox_implementation/Mailbox_SourceCode/servers/pm/mailbox.c:560-611 | a retrieval leaves no message behind that the caller was the last to collect |
| MailboxAnswers.AnsweredFromStart | Minix_Mailbox_implementation/Mailbox_SourceCode/servers/pm/main.c:68-157 | over every legal run from start-up and for every process: what is due for its calls, `Ok` for a suspended one, is exactly the answers set for it by calls and replays, in order, followed by the one it still waits for; so each call is answered once |
| MailboxAnswers.AnsweredOnce | Minix_Mailbox_implementation/Mailbox_SourceCode/servers/pm/main.c:68-157 | the same from any state about to receive, with what was awaited there |
| MailboxAnswers.DrainAwaited | Minix_Mailbox_implementation/Mailbox_SourceCode/servers/pm/main.c:71-72 | over a drain, what a process waited for is what it is answered, followed by what it still waits for |
| MailboxAnswers.ReplayAwaited | Minix_Mailbox_implementation/Mailbox_SourceCode/servers/pm/main.c:557-559 | a replay that sets an answer ends the wait of that process with `Ok`; any other leaves it waiting, and nobody else is touched |
| MailboxInvariant.EveryTurnSound | Minix_Mailbox_implementation/Mailbox_SourceCode/servers/pm/mailbox.c:332-348 | at every turn of every drain: all flagged records name the mailbox whose id is in the request, no process has two records, and each record names a live mailbox that still lists its sender |
| MailboxInvariant.ReplayIsFreshDeposit | Minix_Mailbox_implementation/Mailbox_SourceCode/servers/pm/mailbox.c:332-348 | a replay equals the saved deposit called afresh with its record gone, although the id is read before the context is restored |
| MailboxModel.ReplayLowersFlags | Minix_Mailbox_implementation/Mailbox_SourceCode/servers/pm/main.c:533-560 | a replay turn strictly lowers the number of flagged records, in any state at all, so every drain ends |
| MailboxInvariant.ReplayClearsOne | Minix_Mailbox_implementation/Mailbox_SourceCode/servers/pm/main.c:541-557 | in a reachable state it lowers it by exactly one, whether the deposit succeeds or is suspended again |
| MailboxInvariant.DrainLength | Minix_Mailbox_implementation/Mailbox_SourceCode/servers/pm/main.c:71-72 | a drain takes exactly as many turns as records are flagged: after that many it is over, and not before |
| MailboxModel.Drain | Minix_Mailbox_implementation/Mailbox_SourceCode/servers/pm/main.c:71-72 | after a drain nobody is flagged |
| MailboxModel.DepositAddsNoFlag | Minix_Mailbox_implementation/Mailbox_SourceCode/servers/pm/mailbox.c:318-432 | a deposit call never raises the number of flagged records, whatever its outcome |
| MailboxRefinement.SuspendedIffBeyondWindow | Minix_Mailbox_implementation/Mailbox_SourceCode/servers/pm/mailbox.c:412-418 | when the loop is about to receive, a process is suspended exactly when one of its messages lies beyond the first five of a queue |
| MailboxRefinement.QuietWindow | Minix_Mailbox_implementation/Mailbox_SourceCode/servers/pm/mailbox.c:362-418 | then a mailbox holds exactly the first five messages of its queue, and the suspended deposits, in list order, are exactly the rest |
| MailboxRefinement.HandleRefines | Minix_Mailbox_implementation/Mailbox_SourceCode/servers/pm/main.c:68-157 | serving one request and draining what it flagged is one step of the unbounded queues, same reply |
| MailboxRefinement.ServeRefines | Minix_Mailbox_implementation/Mailbox_SourceCode/servers/pm/main.c:139-157 | the same before the drain, for every call |
| MailboxRefinement.DrainRefines | Minix_Mailbox_implementation/Mailbox_SourceCode/servers/pm/main.c:71-72 | draining leaves every queue as it is |
| MailboxRefinement.ReplayRefines | Minix_Mailbox_implementation/Mailbox_SourceCode/servers/pm/main.c:533-560 | so does each replay turn: re-saving at the tail keeps the order |
| MailboxRefinement.DepositQueues | Minix_Mailbox_implementation/Mailbox_SourceCode/servers/pm/mailbox.c:356-418 | a deposit puts its message after the accepted and the re-saved ones and before those still to be replayed; all other queues stay |
| MailboxRefinement.DepositRefines | Minix_Mailbox_implementation/Mailbox_SourceCode/servers/pm/mailbox.c:318-432 | a deposit, accepted or suspended, appends to the unbounded queue |
| MailboxRefinement.RetrieveRefines | Minix_Mailbox_implementation/Mailbox_SourceCode/servers/pm/mailbox.c:507-549 | a retrieval takes from the first five of the queue |
| MailboxRefinement.UnblockMovesWaiting | Minix_Mailbox_implementation/Mailbox_SourceCode/servers/pm/mailbox.c:798-810 | flagging keeps the waiting order of its mailbox and touches no other |
| MailboxRefinement.OpenRefines | Minix_Mailbox_implementation/Mailbox_SourceCode/servers/pm/mailbox.c:112-208 | opening agrees with opening on unbounded queues |
| MailboxRefinement.CloseRefines | Minix_Mailbox_implementation/Mailbox_SourceCode/servers/pm/mailbox.c:213-240 | closing agrees with closing on unbounded queues, suspended deposits included |
| MailboxInvariant.RunKeepsReady | Minix_Mailbox_implementation/Mailbox_SourceCode/servers/pm/main.c:68-157 | the invariant holds after every legal run |
| MailboxInvariant.HandleKeepsReady | Minix_Mailbox_implementation/Mailbox_SourceCode/servers/pm/main.c:68-157 | and after every request with its drain |
| MailboxInvariant.ServeKeepsInv | Minix_Mailbox_implementation/Mailbox_SourceCode/servers/pm/main.c:139-157 | every call keeps it |
| MailboxInvariant.OpenKeepsInv | Minix_Mailbox_implementation/Mailbox_SourceCode/servers/pm/mailbox.c:112-208 | opening keeps the limits, distinct names and ids, and every suspended record |
| MailboxInvariant.CloseKeepsInv | Minix_Mailbox_implementation/Mailbox_SourceCode/servers/pm/mailbox.c:213-257 | closing by a process that is not suspended leaves every suspended record a live mailbox that lists its sender |
| MailboxInvariant.DepositKeepsInv | Minix_Mailbox_implementation/Mailbox_SourceCode/servers/pm/mailbox.c:318-432 | a deposit keeps the five-message limit and at most one record a process; a new record means a full mailbox |
| MailboxInvariant.RetrieveKeepsInv | Minix_Mailbox_implementation/Mailbox_SourceCode/servers/pm/mailbox.c:507-614 | a retrieval flags every record of a mailbox that is no longer full |
| MailboxInvariant.ReplayKeepsInv | Minix_Mailbox_implementation/Mailbox_SourceCode/servers/pm/main.c:533-560 | a replay keeps the invariant and its deposit is accepted or suspended again, never refused |
| MailboxInvariant.DrainKeepsInv | Minix_Mailbox_implementation/Mailbox_SourceCode/servers/pm/main.c:71-72 | a drain ends in a state about to receive, with the invariant |
| MailboxDelivery.TakeShape | Minix_Mailbox_implementation/Mailbox_SourceCode/servers/pm/mailbox.c:560-611 | a retrieval returns the first message that lists the caller and strikes it off; the message goes exactly when nobody is left on it, and the others stay as they were |
| MailboxDelivery.TakeTakesHead | Minix_Mailbox_implementation/Mailbox_SourceCode/servers/pm/mailbox.c:560-611 | that text is the head of what the caller is owed, and nobody else is owed more or less |
| MailboxDelivery.DepositBalanced | Minix_Mailbox_implementation/Mailbox_SourceCode/servers/pm/mailbox.c:356-418 | a deposit adds to what each listed receiver is owed, at the end, once for each listing |
| MailboxDelivery.RetrieveBalanced | Minix_Mailbox_implementation/Mailbox_SourceCode/servers/pm/mailbox.c:507-549 | a retrieval moves one text from owed to collected |
| MailboxDelivery.StepBalanced | Minix_Mailbox_implementation/Mailbox_SourceCode/servers/pm/main.c:139-157 | every call keeps the ledger of every mailbox that it does not close |
| MailboxDelivery.IdealRunBalanced | Minix_Mailbox_implementation/Mailbox_SourceCode/servers/pm/main.c:68-157 | so does every run |
| MailboxRules.ServeFollowsRule | Minix_Mailbox_implementation/Mailbox_SourceCode/servers/pm/main.c:139-157 | what each of the four calls does, stated apart from the functions that compute it: the reply, its error cases included, and the whole new state, with five mailboxes and five messages as the limits and each argument of the request in its place |
| MailboxRules.DepositFollows | Minix_Mailbox_implementation/Mailbox_SourceCode/servers/pm/mailbox.c:352-429 | refused exactly for a caller who is no sender of that mailbox; otherwise put behind the messages while there are fewer than five, else suspended at the end of the list with its saved request |
| MailboxRules.RetrieveFollows | Minix_Mailbox_implementation/Mailbox_SourceCode/servers/pm/mailbox.c:522-549 | the two errors exactly; otherwise the first message for the caller is returned and struck off, goes exactly with its last receiver, and only then are that mailbox's suspended senders flagged |
| MailboxRules.TakeCollects | Minix_Mailbox_implementation/Mailbox_SourceCode/servers/pm/mailbox.c:560-611 | a message loses the one entry of the caller, in place, and all the others stay as they are |
| MailboxRules.LegalMore | Minix_Mailbox_implementation/Mailbox_SourceCode/servers/pm/main.c:75-81 | a run goes on with exactly the requests of existing processes that are not suspended |
| MailboxRules.RunMore | Minix_Mailbox_implementation/Mailbox_SourceCode/servers/pm/main.c:68-157 | each further request of a run is served by its rule and followed by a drain |
| MailboxAccess.OpenGrants | Minix_Mailbox_implementation/Mailbox_SourceCode/servers/pm/mailbox.c:135-205 | opening fails only for the limit of five, checked before the name, or an unknown name; otherwise the caller is entered last among the senders when it opens for writing, else last among the receivers, of the mailbox with that name, whose id is returned, and nothing else changes; a new mailbox gets the next id, its creator as owner and only entry |
| MailboxAccess.CloseUndoesOpen | Minix_Mailbox_implementation/Mailbox_SourceCode/servers/pm/mailbox.c:213-257 | closing right after opening restores all mailboxes, for a caller who has no other entry in it and does not own it; a mailbox made by that open goes again, its id spent |
| MailboxAccess.CloseWithdraws | Minix_Mailbox_implementation/Mailbox_SourceCode/servers/pm/mailbox.c:227-277 | closing strikes out the first entry of the caller on each list, the others keeping their order, forgets an owner who leaves, keeps id, name and messages and every other mailbox, and unlinks the mailbox exactly when both lists end empty; an unknown id changes nothing |
| MailboxModel.Listed | Minix_Mailbox_implementation/Mailbox_SourceCode/servers/pm/mailbox.c:388-410 | the receivers copied are the longest prefix of positive entries, at most five |
| MailboxServer.ProcessManager.MainLoop | Minix_Mailbox_implementation/Mailbox_SourceCode/servers/pm/main.c:68-159 | the loop that replays while somebody is flagged and receives only otherwise ends in the state, with the replies and with the answers set, of handling the requests one by one with a drain after each |
| MailboxServer.ProcessManager.Dispatch | Minix_Mailbox_implementation/Mailbox_SourceCode/servers/pm/main.c:139-157 | receiving and dispatching one request computes the modelled step, state and reply |
| MailboxServer.ProcessManager.UnblockSystemCalls | Minix_Mailbox_implementation/Mailbox_SourceCode/servers/pm/main.c:533-560 | clears the first flag and calls that deposit again: the modelled replay turn, with the answer it sets unless the deposit is suspended again |
| MailboxServer.ProcessManager.DoDepositMessage | Minix_Mailbox_implementation/Mailbox_SourceCode/servers/pm/mailbox.c:318-432 | the whole new state and reply of a deposit, fresh or resumed |
| MailboxServer.ProcessManager.DoRetrieveMessage | Minix_Mailbox_implementation/Mailbox_SourceCode/servers/pm/mailbox.c:507-549 | the whole new state and reply of a retrieval, with its two errors |
| MailboxServer.ProcessManager.RetrieveMessage | Minix_Mailbox_implementation/Mailbox_SourceCode/servers/pm/mailbox.c:554-614 | the nested scan takes the first message for the caller, removes it when spent, and then flags the suspended senders |
| MailboxServer.ProcessManager.DoOpenMailbox | Minix_Mailbox_implementation/Mailbox_SourceCode/servers/pm/mailbox.c:112-208 | mailboxes, next id and reply of opening, with its two errors |
| MailboxServer.ProcessManager.DoCloseMailbox | Minix_Mailbox_implementation/Mailbox_SourceCode/servers/pm/mailbox.c:213-240 | mailboxes and reply of closing |
| MailboxServer.ProcessManager.RemoveProcess | Minix_Mailbox_implementation/Mailbox_SourceCode/servers/pm/mailbox.c:263-277 | the caller leaves owner, receivers and senders of that mailbox only |
| MailboxServer.ProcessManager.GetContext | Minix_Mailbox_implementation/Mailbox_SourceCode/servers/pm/mailbox.c:467-484 | restores the saved request and text of that process, or reports none and leaves the request |
| MailboxServer.ProcessManager.DeleteSender | Minix_Mailbox_implementation/Mailbox_SourceCode/servers/pm/mailbox.c:815-851 | takes exactly the first record of that process out of the list |
| MailboxServer.ProcessManager.UnblockSender | Minix_Mailbox_implementation/Mailbox_SourceCode/servers/pm/mailbox.c:798-810 | the flagging loop computes `Unblock` |
| MailboxServer.ProcessManager.IsAnySenderUnblocked | Minix_Mailbox_implementation/Mailbox_SourceCode/servers/pm/mailbox.c:895-907 | true exactly when the loop must not receive yet |
| MailboxServer.CopyReceivers | Minix_Mailbox_implementation/Mailbox_SourceCode/servers/pm/mailbox.c:388-410 | the copy loop computes `Listed` |
| MailboxServer.DeleteProcess | Minix_Mailbox_implementation/Mailbox_SourceCode/servers/pm/mailbox.c:283-313 | removes the first entry of that process, if any |
| Diners.DeadlockFreeIffChairToSpare | Diners_pblm_sem/diners_pblm_sem.c:24 | for any number of philosophers and rounds from one on: no run gets stuck if and only if there is a chair but fewer chairs than philosophers |
| Diners.EveryRunEndsFed | Diners_pblm_sem/diners_pblm_sem.c:41-61 | with a chair to spare every run has at most 6 * rounds * n steps, and one that can go no further has that many, everyone fed `rounds` times, all chopsticks unlocked and all chairs free |
| Diners.NeverStuck | Diners_pblm_sem/diners_pblm_sem.c:44-60 | with a chair to spare no reachable unfinished state is stuck |
| Diners.NeighboursNeverEatTogether | Diners_pblm_sem/diners_pblm_sem.c:50-57 | in every reachable state no two neighbours eat, and free chairs plus seated philosophers is constant |
| Diners.WhoMoves | Diners_pblm_sem/diners_pblm_sem.c:45-60 | a run goes on with exactly these: a thinker with a round left while fewer than all chairs are taken, a seated philosopher whose left neighbour does not eat, one with a left chopstick whose right neighbour holds none of its own, and everybody who gives something back |
| Diners.StuckIsFullRing | Diners_pblm_sem/diners_pblm_sem.c:48-51 | a stuck state has everybody holding the left chopstick, so as many chairs as philosophers |
| Diners.WaitsRoundTheRing | Diners_pblm_sem/diners_pblm_sem.c:50-51 | in a stuck state waiting for the right neighbour spreads round the whole ring |
| Diners.StepKeepsInv | Diners_pblm_sem/diners_pblm_sem.c:45-60 | every step keeps: a chopstick is locked exactly when one of its two users holds it, never both; chairs add up; rounds stay in bounds |
| Diners.RunLength | Diners_pblm_sem/diners_pblm_sem.c:45-60 | progress after a run is progress before plus its length |
| DinersPlain.StuckIffAllHoldLeft | Diners_pblm/diners_pblm.c:42-53 | without chairs a reachable state is stuck before the end if and only if everyone holds the left chopstick and waits for the right one |
| DinersPlain.DeadlockIsReachable | Diners_pblm/diners_pblm.c:42-53 | for every number of philosophers there is a run into that state |
| DinersPlain.EveryRunEndsFedOrStuck | Diners_pblm/diners_pblm.c:38-54 | every run has at most 4 * rounds * n steps; one that can go no further has that many, everyone fed and all chopsticks unlocked, or fewer, and everyone holds the left chopstick |
| DinersPlain.RunLength | Diners_pblm/diners_pblm.c:42-53 | progress after a run is progress before plus its length |
| DinersPlain.WhoMoves | Diners_pblm/diners_pblm.c:42-53 | a run goes on with exactly these: a thinker with a round left whose left neighbour does not eat, one with a left chopstick whose right neighbour holds none of its own, and everybody who gives something back |
| DinersPlain.StuckMeansAllHoldLeft | Diners_pblm/diners_pblm.c:45-46 | the walk round the ring, from the invariant |
| DinersPlain.StepKeepsInv | Diners_pblm/diners_pblm.c:45-52 | every step keeps chopsticks and holders in agreement |
| ThreadMergeRank.FindPosition | array_merge_thread/array_merge_thread.c:104-130 | for sorted arrays the search ends with a position if and only if the value is not in the other array, and then it is the index plus the number of smaller values there; on a common value it falls out of the loop with a stale middle exactly when that is only the last of the other array, and spins otherwise |
| ThreadMergeRank.PlaceIsRank | array_merge_thread/array_merge_thread.c:94-131 | for sorted arrays without a common value a thread's position lies in the output, behind all smaller values of both arrays and before all larger ones |
| ThreadMergeRank.PlacesOrdered | array_merge_thread/array_merge_thread.c:94-131 | positions are ordered as the values are, equal values as they stand in their array; no two threads share one |
| ThreadMergeRank.SomeThreadFor | array_merge_thread/array_merge_thread.c:94-131 | every place of the output belongs to a thread |
| ThreadMergeRank.AllPlacedIsMerge | array_merge_thread/array_merge_thread.c:131 | an output with all values placed is sorted and holds every value of both arrays as often as they do |
| ThreadMergeHandshake.FinishesIffHeard | array_merge_thread/array_merge_thread.c:57-60 | a run that can go no further ends with main having joined everybody if and only if every signal of the run was sent while main was waiting; otherwise main waits for ever |
| ThreadMergeHandshake.HeardRunsMerge | array_merge_thread/array_merge_thread.c:52-131 | every run has at most 12 * n + 2 steps for n elements; one that can go no further and in which every signal was heard has exactly that many and leaves the sorted merge |
| ThreadMergeHandshake.RunMisses | array_merge_thread/array_merge_thread.c:57-60 | over every run, main has missed a signal at the end if and only if it had at the start or a signal of the run went unheard |
| ThreadMergeHandshake.RunLength | array_merge_thread/array_merge_thread.c:52-131 | progress after a run is progress before plus its length |
| ThreadMergeHandshake.FinishedMeansMerged | array_merge_thread/array_merge_thread.c:52-65 | under every schedule, if main joins all workers the output is the sorted merge, every value as often as in the inputs |
| ThreadMergeHandshake.EachWorkerTakesItsNumber | array_merge_thread/array_merge_thread.c:89-92 | under every schedule a worker that has read `count` read its own number, and all have when main joins |
| ThreadMergeHandshake.WhoMoves | array_merge_thread/array_merge_thread.c:52-92 | a run goes on with exactly these: to lock the mutex, main while no worker has it and a worker while nobody has it; a joining main once the next worker is done; and everybody else but a waiting main and those at their end |
| ThreadMergeHandshake.StuckIffAbandoned | array_merge_thread/array_merge_thread.c:57-65 | what a run that ends otherwise looks like: main waits and every worker so far is done |
| ThreadMergeHandshake.SignalCanBeMissed | array_merge_thread/array_merge_thread.c:57-58 | for all inputs there is a schedule with an unheard signal after which no step is possible |
| ThreadMergeHandshake.SomeRunMerges | array_merge_thread/array_merge_thread.c:52-131 | and for all inputs there is one that merges them |
| ThreadMergeHandshake.StepKeepsInv | array_merge_thread/array_merge_thread.c:52-131 | every step of main or a worker keeps numbers, mutex and written places right |
| ThreadMergeHandshake.MainKeepsInv | array_merge_thread/array_merge_thread.c:52-65 | the steps of main |
| ThreadMergeHandshake.WorkerKeepsInv | array_merge_thread/array_merge_thread.c:89-131 | the steps of a worker; no worker overwrites another's place |
| Smokers.EveryRunEndsClean | Smoker_pblm/smokers_pblm.c:57-123 | every run has at most 29 * rounds steps; one that can go no further has that many, everybody through, an empty table and all semaphores at zero |
| Smokers.TableAndSignals | Smoker_pblm/smokers_pblm.c:61-75 | in every reachable state the table is empty or holds one tobacco and one paper in phase 0, one match and one paper in phase 1, one tobacco and one match in phase 2; a smoker about to consume finds just its own pair; the agent waits whenever a smoker signals, so no signal is lost |
| Smokers.WhoMoves | Smoker_pblm/smokers_pblm.c:57-123 | a run goes on with exactly these: an idle agent with a round left, a woken one once every smoker is back, a smoker whose pair the agent has posted, one that wants the table once the agent waits, and everybody in the middle of a turn |
| Smokers.NeverStuck | Smoker_pblm/smokers_pblm.c:83-122 | if nothing can move, everybody is through |
| Smokers.StepKeepsInv | Smoker_pblm/smokers_pblm.c:57-153 | every step keeps table, semaphores, mutex and round counts in agreement with the two program counters |
| Smokers.RunLength | Smoker_pblm/smokers_pblm.c:57-153 | progress after a run is progress before plus its length |
| Smokers.StepAddsOne | Smoker_pblm/smokers_pblm.c:57-153 | every step is one step of progress |
| MatrixMultiply.AnyInterleavingMultiplies | Mat_Mul_Threads/mat_mul.c:33-78 | whatever the interleaving of the single reads and writes of all slices, once no slice has a row left every entry of C is the row of A times the column of B, whatever it held before |
| MatrixMultiply.EntryIsDot | Mat_Mul_Threads/mat_mul.c:43-45 | the sum that the innermost loop adds up is the row times the column, defined on its own |
| MatrixMultiply.WhoMoves | Mat_Mul_Threads/mat_mul.c:67-78 | a run goes on with exactly the threads whose slice has a row left: nobody waits for anybody |
| MatrixMultiply.SliceBounds | Mat_Mul_Threads/mat_mul.c:36-37 | the rows of a slice without division: row i is in slice s exactly when s * size < (i + 1) * threads <= (s + 1) * size |
| MatrixMultiply.EveryRunEnds | Mat_Mul_Threads/mat_mul.c:41-47 | every run has at most size * size * (2 * size + 1) accesses to C, and one that can go no further exactly that many, for any number of threads |
| MatrixMultiply.RunLength | Mat_Mul_Threads/mat_mul.c:41-47 | the accesses made after a run are those made before plus its length |
| MatrixMultiply.MadeAtMost | Mat_Mul_Threads/mat_mul.c:36-37 | slices lie end to end, so the accesses made by the first slices add up to those of the rows they cover |
| MatrixMultiply.RowInOneSlice | Mat_Mul_Threads/mat_mul.c:36-37 | for every size and thread count every row is in exactly one slice |
| MatrixMultiply.OthersUntouched | Mat_Mul_Threads/mat_mul.c:41-47 | a step of one slice keeps what every other slice has done |
| MatrixMultiply.OwnStep | Mat_Mul_Threads/mat_mul.c:41-47 | and gets its own slice one access further |
| MatrixMultiply.Multiply | Mat_Mul_Threads/mat_mul.c:33-51 | one call makes every entry of its slice the row of A times the column of B and changes no other row |
| MergeSort.Sort | Basic Datastructures/MergeSort/mergesort.c:59-61 | the array ends sorted with its own elements, and from two elements on the scratch array, which is the one printed, equals it |
| MergeSort.MSort | Basic Datastructures/MergeSort/mergesort.c:47-57 | a range ends as the merge sort of its contents, nothing outside changes in either array, and a range of two or more leaves the scratch array equal to it |
| MergeSort.Merge | Basic Datastructures/MergeSort/mergesort.c:11-45 | the range ends as the merge of its two runs; the extra copy to left - 1 changes nothing, since the scratch array already agrees there |
| MergeSort.FillTemp | Basic Datastructures/MergeSort/mergesort.c:18-39 | the three loops put the merge into the scratch array and nothing else |
| MergeSort.MergeHeads | Basic Datastructures/MergeSort/mergesort.c:18-29 | the first loop stops with a run used up and the merge written that far |
| MergeLoops.CopyRest | Basic Datastructures/MergeSort/mergesort.c:30-39 | a closing loop copies the rest of a run, which is what the merge has left |
| MergeSort.Halves | Basic Datastructures/MergeSort/mergesort.c:51-55 | two halves sorted one after the other merge to the whole range sorted |
| MergeSort.MSortedSorts | Basic Datastructures/MergeSort/mergesort.c:47-57 | merge sort gives a sorted permutation of every sequence |
| MergeSort.MergedIsSorted | Basic Datastructures/MergeSort/mergesort.c:18-39 | merging sorted runs gives a sorted one |
| MergeSort.MergedKeepsElements | Basic Datastructures/MergeSort/mergesort.c:18-39 | merging keeps every element as often as it occurs |
| HeapSort.Heapsort | Basic Datastructures/Heap/main.c:30-41 | for every n the first n elements end sorted, the array is a permutation of itself, and what lies behind n stays |
| HeapSort.BuildMaxHeap | Basic Datastructures/Heap/main.c:43-47 | makes the first n elements a heap, permuting them |
| HeapSort.MaxHeapify | Basic Datastructures/Heap/main.c:49-63 | ends, and sinks the value as `Heapified` does |
| HeapSort.HeapifyRestores | Basic Datastructures/Heap/main.c:49-63 | sinking the one node out of order makes a heap of the nodes from any lower bound on |
| HeapSort.HeapifyPermutes | Basic Datastructures/Heap/main.c:49-63 | sinking permutes the first n places, keeps the others, and keeps every bound on the values |
| HeapSort.SinkOne | Basic Datastructures/Heap/main.c:53-62 | one exchange moves the exception one level down |
| HeapSort.RootIsLargest | Basic Datastructures/Heap/main.c:33-36 | the root of a heap is its largest value |
| HeapSort.BuildMakesHeap | Basic Datastructures/Heap/main.c:43-47 | heapifying from n / 2 down to 0 makes a heap |
| HeapSort.DrainOne | Basic Datastructures/Heap/main.c:33-38 | one round keeps: a heap, nowhere above the sorted places behind it, same elements |
| HeapSort.DrainSorts | Basic Datastructures/Heap/main.c:33-39 | so the rounds end with everything sorted |
| DuplicateRemoval.Merge | Duplicate_removal_arrays/duplicate_removal_method_1.c:17-57 | the range starts with the collapsed merge of its runs, `dup` counts the collisions, the last `dup` places get what the scratch array had there, and nothing outside changes |
| DuplicateRemoval.CollapsedIsUnion | Duplicate_removal_arrays/duplicate_removal_method_1.c:22-51 | collapsing two strictly increasing runs gives their union, strictly increasing, shorter by the number of shared values |
| DuplicateRemoval.CollapsedElements | Duplicate_removal_arrays/duplicate_removal_method_1.c:22-51 | no value is lost or invented, in whatever order the runs are |
| DuplicateRemoval.CollapsedKeepsRuns | Duplicate_removal_arrays/duplicate_removal_method_1.c:22-51 | whatever the runs, each survives whole and in order; only a value met in both at once is written once for the two |
| DuplicateRemoval.CollapsedIncreasing | Duplicate_removal_arrays/duplicate_removal_method_1.c:22-51 | strictly increasing runs collapse to a strictly increasing one |
| DuplicateRemoval.CollisionsAreShared | Duplicate_removal_arrays/duplicate_removal_method_1.c:23-29 | the collisions of strictly increasing runs are their shared values |
| DuplicateRemoval.CollapseHeads | Duplicate_removal_arrays/duplicate_removal_method_1.c:22-41 | the first loop stops with a run used up, the collapsed merge written that far and its collisions counted |
| DuplicateRemoval.FillTemp | Duplicate_removal_arrays/duplicate_removal_method_1.c:22-51 | the three loops put the collapsed merge into the scratch array and nothing else |
| DuplicateRemoval.RmDuplicate | Duplicate_removal_arrays/duplicate_removal_method_1.c:87-101 | a new array with the values the scan keeps, followed by zeros |
| DuplicateRemoval.ScanKeepsFirstOccurrencesIff | Duplicate_removal_arrays/duplicate_removal_method_1.c:87-101 | that is the first occurrences in order followed by zeros if and only if the input starts with zero or has no new value after a zero; so always without zeros |
| DuplicateRemoval.ScanKeepsFirstNonZeros | Duplicate_removal_arrays/duplicate_removal_method_1.c:87-101 | for every input, what the scan keeps: the first occurrences, of all values if the first is zero and of the others if it is not |
| DuplicateRemoval.ScanAgainstFirst | Duplicate_removal_arrays/duplicate_removal_method_1.c:87-101 | from a non-zero start the scan loses only the zero; a new value after it shows the loss at a place |
| DuplicateRemoval.ZeroLosesItsPlace | Duplicate_removal_arrays/duplicate_removal_method_1.c:87-101 | on the fifteen values 1, 0, 2 and twelve zeros the result is not the first occurrences |
| DuplicateRemoval.FirstOccurrencesPlaces | Duplicate_removal_arrays/duplicate_removal_method_1.c:87-101 | the first occurrences are the values at exactly the places where a value comes first, in order |
| DuplicateRemoval.CheckDuplicate | Duplicate_removal_arrays/duplicate_removal_method_1.c:78-85 | positive exactly when the value is among the first count + 1 |
| HashTable.TableIsSetOfAdded | Basic Datastructures/Hashtable/Hash_table_ex.cpp:65-78 | over any sequence of additions to an empty table: members are exactly the strings added, the code is STR_EXISTS exactly when the string came before, each string sits once in its bucket, and as many are stored as are distinct |
| HashTable.AddedAdds | Basic Datastructures/Hashtable/Hash_table_ex.cpp:65-78 | an addition makes exactly that string a member, stores it only if it was none, and then at the head of one chain, every other chain staying as it was |
| HashTable.MemberInBucket | Basic Datastructures/Hashtable/Hash_table_ex.cpp:59-62 | a string is in the table exactly when it is in its own bucket |
| HashTable.ShiftAndSubtract | Basic Datastructures/Hashtable/Hash_table_ex.cpp:46-50 | shift and subtract in 32-bit words is multiplication by 31, for signed characters too |
| HashTable.Hash | Basic Datastructures/Hashtable/Hash_table_ex.cpp:43-52 | the loop computes the sum of each character times 31 to the power of the number of characters behind it, modulo 2^32, modulo the size |
| HashTable.PolynomialIsPowers | Basic Datastructures/Hashtable/Hash_table_ex.cpp:46-50 | multiplying by 31 and adding, character by character, is that sum |
| HashTable.HashTableCreate | Basic Datastructures/Hashtable/Hash_table_ex.cpp:23-40 | no table for a size below one; otherwise a table of that size with all buckets empty |
| HashTable.Table.LookupString | Basic Datastructures/Hashtable/Hash_table_ex.cpp:54-63 | returns the one element of the chains that holds the string, and none exactly when it is no member |
| HashTable.Table.AddString | Basic Datastructures/Hashtable/Hash_table_ex.cpp:65-78 | the new chains and the code are those of `Added`, and every string stays in its bucket, once |
| ShellPipes.SplitUndoesJoinIff | Minix_shell/GRS_Source_Code/grsPipes.c:24-32 | for two or more pieces, splitting the joined line gives them back if and only if they have no separator, no leading space and the last is not empty; then the pipe flag and no other is raised |
| ShellPipes.ResplitIsStable | Minix_shell/GRS_Source_Code/grsParser.c:41-92 | whatever line was typed: if it is cut into two or more pieces, the last not empty, the line joined from them is cut into the same pieces |
| ShellPipes.SplitIsChunks | Minix_shell/GRS_Source_Code/grsParser.c:41-92 | the pieces of any line: one for each chunk before a separator, without the spaces in front and one space at the end, and one for what follows the last separator, without the spaces in front, unless nothing is left of it |
| ShellPipes.FeedPieceAndSeparator | Minix_shell/GRS_Source_Code/grsParser.c:43-70 | before any of the five separators a clean piece is cut as it is, or without the one space that ends it, and the separator raises its own flag |
| ShellPipes.JoinedMore | Minix_shell/GRS_Source_Code/grsPipes.c:24-32 | the joined line is a space and the first piece, with a bar between two spaces before each further piece |
| ShellPipes.FeedCounts | Minix_shell/GRS_Source_Code/grsParser.c:41-82 | every separator cuts one piece, and each flag is raised exactly by its own character |
| ShellPipes.FeedKeepsClean | Minix_shell/GRS_Source_Code/grsParser.c:72-78 | no piece of any line holds a separator or starts with a space |
| ShellPipes.FeedJoined | Minix_shell/GRS_Source_Code/grsPipes.c:24-32 | splitting a joined line leaves the last piece in the text and the others cut, in order |
| ShellPipes.FeedPieceAndBar | Minix_shell/GRS_Source_Code/grsParser.c:43-78 | a piece followed by the joiner's bar is cut without its trailing space |
| ShellPipes.Parser.FillCmd | Minix_shell/GRS_Source_Code/grsParser.c:34-93 | the buffer holds exactly the pieces, the index is their number, the flags are those raised, and what lies behind stays |
| ShellPipes.PipeHandle | Minix_shell/GRS_Source_Code/grsPipes.c:12-32 | builds the joined line, or refuses fewer than two commands |

## Left out

- MailboxDelivery.DeliveredOnceInOrder: says nothing about a mailbox that the run closes; its undelivered messages go with it.
- MailboxServer.ProcessManager.MainLoop: serves a finite list of requests, where the source runs forever; it returns the answers set (`setreply`), and when `sendreply` delivers them, and the process flags, are left out.
- MailboxServer.ProcessManager.DoDepositMessage: the length checks of `fetchMessage` are left out; its result is ignored by both callers.
- MailboxServer.ProcessManager.DoOpenMailbox: the id counter does not overflow.
- ThreadMergeRank.FindPosition: is stated for sorted arrays, which the binary search presumes.
- ThreadMergeHandshake.FinishedMeansMerged: main may wait for ever instead; `FinishesIffHeard` says for exactly which schedules.
- MatrixMultiply.AnyInterleavingMultiplies: joining the thread slot 0 that was never filled (lines 81-82) is left out.
- HashTable.HashTableCreate: allocation does not fail; freeing the table is left out.
- HashTable.Table.AddString: allocation does not fail, so MEM_ERROR does not occur.
- ShellPipes.Parser.FillCmd: needs room for the pieces in the buffer; the 100-character limit of a piece is left out, and so is reusing old entries.
- ShellPipes.PipeHandle: stops at the line handed to `popen`.
- The process manager's linked lists are sequences here: sharing and freeing of nodes is not modelled.
- `do_getReceiverList`, the receiver query, is an easy copy loop.
- Kernel message passing, file-system replies, signals, start-up, and exiting or killed processes.
- `dupless_mergesort` as a whole: its zero fill inside the recursion breaks the order that the outer merge needs.
- The rest of the shell: processes, signals, redirection, aliases and profile files.
- The file fragmentation server, the process viewer, insertion sort, the binary tree, the digit patterns and array intersection.
- Printing and reading of input.
