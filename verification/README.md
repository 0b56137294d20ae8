# Verification of the localized causal broadcast stack

This project models the broadcast stack of the repository and proves what it is for. N
processes exchange messages over a network that may lose, duplicate and reorder them.
Four layers turn that into localized causal broadcast: perfect links (resend until
acknowledged), best-effort broadcast, uniform reliable broadcast (deliver on a majority of
acknowledgements) and the causal layer (vector clocks and a pending set). A FIFO layer is
an alternative to the causal one.

`dafny verify dfyconfig.toml` checks everything.

## How it is organised

**The system as a whole.** `Protocol` is a transition system over the state of all
processes, the set of packets ever sent, and the history of broadcasts. Its steps are one
iteration of `send_lcb`, the handling of one received packet up through all layers, a
sender thread's accesses to the shared queue and tables, and a crash. Receiving may take
any packet ever sent, any number of times or never. Its handlers (`SendUrb`, `DeliverUrb`,
`DeliverData`, `Poll`, `Act`, ...) are functions, and the theorems are about every state
of every run:

- `Genuine`, `Links`, `UrbFacts` and `Logs` are the four layers of the invariant, each
  preserved by every step; `Runs` puts them together.
- `Agreement`, `CausalOrder` and `TableEdge` draw the conclusions. Those about quiescent
  states speak of states in which nothing is left to send to a live process;
  `Continuations` proves that every reachable state can go on to one, and `Witnesses`
  reaches the ones that matter: after a crash, and with a message that is refused.
- `OvertakenRun` builds the runs that go wrong without self-dependency and states exactly
  when there are any. `TextRuns` carries the safety results over to the code with
  find_pending as written, also where its receiver spins while the process goes on
  sending. `Checkers` proves that the repository's own log checkers accept the logs of
  every reachable state.
- `CausalDelivery`, `DeliveryOrder` and `SequenceNumbers` treat the causal layer of one
  process under any sequence of arrivals. `FifoDelivery` does so for the FIFO layer and proves it the same
  as the causal layer with self-only dependencies. `Messages` holds identities, logs and
  the numbering of messages.

**One process as it runs.** `Tables`, `TaskQueue`, `VectorList`, `CausalProcess`,
`FifoProcess`, `UrbProcess`, `Sender` and `StackProcess` are the classes and loops of the
C code: arrays that double, a circular queue, doubly linked lists spliced in place,
number-indexed tables. Each method is proved to carry out the function of the first part
that it is named after, so the theorems about runs apply to the imperative code.
`Stack.DeliverData`, `Stack.DeliverAck` and `Stack.SendLcb` are whole handlers, from the
link layer to the log. `Wire` is the byte format.

## Where the code and its intent differ

- `find_pending` (src/pending.c:207-226) reads the next node and then unlinks that one,
  and never advances when a clock test fails. The rest of the model uses the evident
  intent: save the next node, unlink the current one, always advance. `FindPendingText`
  runs the text turn by turn over the nodes in memory, shows the three ways it fails and
  states exactly when it agrees with the intent; `TextRuns` shows that what runs of the
  text log is still right.
- Growing a table clears or allocates by entry count instead of bytes (src/plink.c:64,
  src/urb.c:30-34, src/fifo.c:63-67). The model's new entries are zero, as intended.
  `Tables.TextGrowthSoundIff` and `Tables.ShortReallocSoundIff` state exactly when the
  text is enough, namely when the table does not grow, and `TableEdge.ShortRunTables` that
  none does while everybody has broadcast at most 150 messages.
- `can_deliver` (src/urb.c:233) refuses a row that ends exactly at the end of the table,
  and a process's own broadcasts are only looked at when a packet comes in. Both are
  modelled as they are; `TableEdge` states which messages that costs: those whose row is
  the last one at some size of the table, and from eight processes on none. Up to seven
  it does cost one: `Witnesses.LastRowRefused` reaches a state that loses it for good.
- The clock test only checks "not ahead", and the log prints a counter. FIFO order, exact
  numbers and localized causal order therefore need processes to be in their own
  dependency lists, which the parser does not ensure (src/parser.c:141-162).
  `SequenceNumbers.ExactIffSelfDependent` and `SequenceNumbers.CausalIffSelfDependent`
  prove that this is needed as well as enough, and `OvertakenRun` gives runs of the whole
  system that go wrong without it, unless the cap of the tables keeps the second message
  of a process from ever being delivered.
- test/testlocal.py cannot see that difference: `Checkers.LocalCheckAccepts` needs no
  self-dependency, because the script compares the same counters.

## Conventions

- A process number in the model is the C pid minus one, which is how the C code indexes
  its tables; sequence numbers start at one. Printed log lines (`Checkers.Line`) carry the
  C pid. Broadcasts are identified by (origin, sequence number) and table cells by
  (broadcast, process); the numbers `seen_id`, `mid` and `ackid` are their images under
  `SeenNum` and `SlotNum`, which are proved injective and onto.
- N and the dependency lists are parameters; the number of broadcasts is unbounded. Table
  writes beyond 8192 fail as in the code.
- An error return makes the process exit (src/receiver.c:37-41, src/da_proc.c:202-206).
  The model drops what the failing handler changed and keeps what the process had sent,
  including the ack that `deliver_pl` sends first.
- Delivered events carry the message beside the printed numbers, so that what was logged
  can be compared with what was delivered. `passed`, `arrived` and `broadcasts` are
  history.
- The tables only ever hold zeroes and ones, so "is one" stands for "is not zero".

## Model

| member | source | states |
|---|---|---|
| CausalOrder.LocalizedCausalOrder | src/lcb.c:12-50 | In every reachable state: if p logged a delivery from its dependency q and broadcast m2 later, whoever delivered m2 delivered that same message of q earlier and under the same number, provided q depends on itself |
| CausalOrder.LoggedNumbersExact | src/pending.c:160-197 | Every logged delivery is the broadcast it names, clock included, and for a self-dependent origin the printed counter is its true sequence number |
| CausalOrder.NothingStaysBlocked | src/lcb.c:33-63 | A process that URB-delivered every broadcast so far has empty pending lists and a clock equal to every sender's broadcast count, with any dependency lists |
| CausalOrder.EarlierDelivered | src/lcb.c:12-28 | The induction behind it, on the order of broadcast: clocks count only earlier broadcasts, so every broadcast is delivered once it and all earlier ones have arrived |
| CausalOrder.StampCovers | src/lcb.c:12-28 | The clock attached to a broadcast counts every delivery its sender had logged before the broadcast's log line |
| CausalOrder.QuiescentConsistency | src/lcb.c:33-63 | When nothing is left to send to a live process and a majority is alive, all live processes have the same clock, deliveries and pending messages, whoever crashed and whatever the crashed never got or never sent on, provided no broadcast has the last row of the ack table at one of its sizes |
| CausalOrder.FaultFreeCompleteness | src/urb.c:157-210 | When nobody crashed and nothing is left to send, everybody has delivered everything broadcast, under the same proviso |
| Agreement.UniformAgreement | src/urb.c:157-210 | If anyone, crashed since or not, URB-delivered a message and at most N/2 crashed, a live process has seen it and every other process, live or not, has too or exactly one task carrying it there is queued or in hand |
| Agreement.MajorityHasSeen | src/urb.c:231-246 | A set ack slot means that process has seen the message; a URB delivery anywhere means a strict majority has |
| Agreement.DeliveriesShareWitness | src/urb.c:229-246 | Any two deliveries of any two messages have a process that has seen both |
| Agreement.SeenIsOwed | src/plink.c:145-169 | Whatever any process has seen, every other one, crashed or not, has seen and counted its ack, or exactly one task to it is still queued or in hand |
| Agreement.QuiescentSeen | src/beb.c:14-45 | With nothing left to send to a live process, tasks for crashed ones aside, what one live process has seen all live ones have, each holding every live process's ack |
| Agreement.QuiescentDelivery | src/urb.c:193-208 | Then, with a live majority and N at least 2, it is delivered everywhere, however far the tables have grown, unless its row is the last one of the ack table at one of its sizes |
| Agreement.QuiescentAgreement | src/urb.c:157-210 | Then what anybody ever delivered, every live process has delivered |
| TableEdge.DeliveredIffNotLastRow | src/urb.c:231-235 | With nothing left to send to a live process and a live majority, a seen message is delivered by a live process if and only if its row is at no size of the ack table the last one, unless that process's table has since grown past such a row |
| TableEdge.ShortRunDelivery | src/urb.c:231-235 | While everybody has broadcast at most 150 messages: if and only if it is not message 150 of the last process |
| TableEdge.MissedForever | src/plink.c:204-214 | Once a process has recorded a packet for a message from everybody else and has not delivered it, it never does in any run, however its table grows |
| TableEdge.StaysInTime | src/urb.c:193-208 | If its table reaches past a row before a majority for that message is complete, it delivers it with the majority in every run |
| Witnesses.LastRowRefused | src/urb.c:231-235 | For two to seven processes a state is reachable, nobody crashed, in which everybody has seen message 150 of the last process, holds everybody's ack and has everybody's packet recorded, and nobody has delivered it |
| Witnesses.LastRowLost | src/plink.c:51-70 | One in which every table has grown past that row since, and still nobody has or ever will |
| Witnesses.LastRowInTime | src/urb.c:119-154 | And one in which the last process delivers that message, because its next broadcast made its table grow in time |
| Witnesses.CrashOutlived | src/plink.c:145-169 | For any one process but the first: it crashes, a message is broadcast after that, and a state is reached in which everybody else has delivered it and nothing is left to send but to the crashed process, which has seen nothing |
| Continuations.AlwaysCanFinish | src/plink.c:145-169 | No reachable state is a dead end: without another broadcast or crash the system can go on until nothing is left to send to a live process, and only processes have to exit on the way whose own number for some broadcast is beyond the cap |
| Continuations.AlwaysCanDeliver | src/urb.c:157-210 | If a majority is alive with its numbers within the cap, it can go on until every live process has delivered everything a live process has seen, last rows aside |
| Continuations.AlwaysCanComplete | src/lcb.c:33-63 | If everybody is, it can go on until every pending list is empty and every clock counts every broadcast, so nothing is blocked for good |
| Continuations.Release | src/plink.c:145-169 | A sender thread left alone retires its task if it is acked and otherwise has sent it and given it back |
| Continuations.Sweep | src/sender.c:33-47 | A free thread can go through the queue: unacked tasks are sent and stay in their order, acked ones go |
| Continuations.Exchange | src/plink.c:181-218 | What a live process owes a live one can be handed over and its ack recorded, unless the receiver exits on its own number |
| Continuations.LackingShrinks | src/plink.c:184-190 | The measure: the acks live processes lack from live processes only become fewer |
| TableEdge.NoLastRowFromEight | src/urb.c:231-235 | With eight processes or more nobody ever sees a message with a last row |
| TableEdge.NoLastRowsFromEight | src/urb.c:231-235 | So no broadcast of such a system is refused for its row, and the results about quiescent states need no proviso |
| TableEdge.OnlyLastRowRefused | src/urb.c:233-235 | Among the first 150 messages of each process exactly one has a last row: message 150 of the last process |
| TableEdge.LoneProcessDeliversNothing | src/urb.c:119-154 | A system of one process delivers nothing, not even its own messages |
| TableEdge.ReachableEdge | src/urb.c:231-235 | In every reachable state deliveries had rows strictly inside the table, and the ack table has its initial size while nobody has broadcast more than 150 messages |
| TableEdge.AckTableBounded | src/plink.c:51-70 | In every reachable state the ack table has its initial size or at most twice the cap |
| TableEdge.ShortRunTables | src/plink.c:51-70 | While everybody has broadcast at most 150 messages, no table of any layer has grown |
| Runs.UrbIntegrity | src/urb.c:119-210 | Each process delivers each broadcast at most once, only if its origin broadcast it, and every copy delivered, queued, in a sender's hands or on the wire carries exactly the clock attached at broadcast |
| Runs.LinkConservation | src/plink.c:145-169 | For every seen message and every other process: the ack is recorded, or exactly one task is in the queue or in a sender's hands; never two |
| Runs.LinkSoundness | src/plink.c:181-218 | An ack is recorded only if the destination, crashed since or not, recorded the link delivery; no (message, relay) pair is passed up twice; what is passed up is exactly what is recorded |
| Runs.PacketsCanBeHandled | src/receiver.c:54-57 | Every packet in flight to a live process meets what its handler relies on, so the receive step is never blocked |
| Runs.ReceiveExitsIff | src/plink.c:184-218 | Receiving makes a process exit if and only if it first sees a message for which its own number is beyond 8192, or is acked under such a number |
| Genuine.SendLcbExitsIff | src/urb.c:119-135 | A broadcast makes its process exit if and only if its own number is beyond 8192 |
| Protocol.EveryReceiptAcked | src/plink.c:191-203 | Every receipt of a data message is answered with an ack under the same two numbers, duplicates included |
| Runs.ReachableInv | src/urb.c:117-210 | The invariant of all four layers holds in every state of every run |
| Runs.StepInv | src/plink.c:145-218 | Every step keeps it, and tables, logs, the network and the history only grow |
| Runs.RunInv | src/urb.c:117-210 | The induction over runs behind it |
| Genuine.StepGenuine | src/beb.c:24-41 | Every step keeps: each table entry, task and packet stems from a broadcast, a relay that saw it, or a recorded delivery, and copies carry the original content |
| Genuine.AckIsGenuine | src/plink.c:191-216 | The ack that deliver_pl sends before it records the delivery is followed by the record, unless its number is beyond the cap, and then its receiver exits rather than record it |
| Genuine.StepGrows | src/plink.c:51-70 | No step unsets a table entry, shortens a log or revives a process |
| Protocol.BebTasksInOrder | src/beb.c:19-42 | send_beb issues N - 1 tasks in the order of the destinations, the sender left out, each with this relay's mid and the destination's ackid |
| Genuine.BebTasksExactly | src/beb.c:19-42 | send_beb issues one task to every process but the sender, and no other |
| Links.StepLink | src/sender.c:33-47 | Every step keeps: no task is ever lost or duplicated between queue and hands, and nothing is passed up twice |
| Links.ActCopies | src/plink.c:154-167 | Sending again, and giving a task back after ten sends, keeps the number of copies of every task |
| Links.PollCopies | src/plink.c:154-154 | A look at the ack table drops a task only if its ack is recorded |
| Links.SendBebCopies | src/beb.c:19-42 | send_beb adds exactly one copy of each of its tasks |
| UrbFacts.StepUrb | src/urb.c:157-210 | Every step keeps: deliveries rest on a majority of acks, a majority forces delivery unless the row is a last row, the ack table holds every set slot, and the causal layer is consistent with exactly what was delivered |
| UrbFacts.RowFitsUnlessLast | src/urb.c:233-235 | A message with an ack in the table has a row that ends strictly inside it, unless that row is the last one |
| UrbFacts.MessageNamesItself | src/lcb.c:20-22 | The own clock entry i - 1 set at broadcast identifies a message, which carries no sequence number |
| Logs.StepLog | src/lcb.c:12-28 | Every step keeps: the clock attached at a "b" line counts exactly the deliveries logged before it, and names only messages broadcast before |
| Logs.CountWithinBroadcast | src/pending.c:160-169 | Nobody's clock exceeds what arrived, nor what was broadcast |
| CausalDelivery.Confluence | src/lcb.c:33-63 | Two arrival orders of the same messages end with the same clock, the same deliveries and the same pending messages, duplicates included |
| CausalDelivery.SameArrivalsSameState | src/pending.c:185-230 | The same for any two consistent fully drained states that received the same messages |
| CausalDelivery.Dominates | src/pending.c:185-197 | What one process delivered at any point of its log, another that received the same messages has delivered |
| CausalDelivery.DeliverConsistent | src/lcb.c:33-63 | After deliver_lcb arrivals equal deliveries plus pending per origin, the clock counts deliveries, every delivery was allowed when made, and everything pending is blocked |
| CausalDelivery.DeliverAllConsistent | src/lcb.c:33-63 | The same after any sequence of arrivals |
| CausalDelivery.DrainConsistent | src/lcb.c:47-54 | The drain keeps the invariant and ends with every pending message blocked |
| CausalDelivery.PassShrinks | src/pending.c:199-230 | A pass of find_pending only appends deliveries and shrinks what is pending by exactly as many, so the drain terminates |
| DeliveryOrder.PassVisits | src/pending.c:199-230 | One pass of find_pending goes through the lists in the order of the processes, each once and from its head; a clock is delivered if and only if no dependency's entry is ahead when its turn comes, and the others keep their order |
| DeliveryOrder.WalkVisits | src/pending.c:206-227 | The same of one list from any position on |
| DeliveryOrder.DeliversAtOnceIff | src/lcb.c:33-63 | A message is delivered at once, under its origin's next number, if and only if no entry for a dependency is ahead, whatever the others say; if not it goes to the end of its origin's list and nothing else changes |
| CausalDelivery.IdlePass | src/pending.c:199-230 | A pass that finds nothing changes nothing and means every pending clock fails the test |
| SequenceNumbers.ExactIffSelfDependent | src/pending.c:185-197 | The numbers logged for o are its true sequence numbers under all duplicate-free arrivals if and only if o is in its own dependency list |
| SequenceNumbers.CausalIffSelfDependent | src/lcb.c:12-50 | p's messages are always delivered after the messages of its dependency q that p had delivered if and only if q is in its own dependency list |
| SequenceNumbers.DeliveredInOrder | src/pending.c:160-197 | A self-dependent origin's messages are delivered with own entries 0, 1, 2, ..., although the test only checks "not ahead" |
| SequenceNumbers.LoggedNumberIsSequenceNumber | src/lcb.c:36-46 | Then the number logged is the sequence number of the message delivered |
| SequenceNumbers.SecondMessageFirst | src/pending.c:185-197 | Without self-dependency a second message can be delivered first and logged as number 1 |
| SequenceNumbers.OvertakenLogs | src/lcb.c:12-50 | The two logs in which p's message overtakes the message of q it depends on |
| SequenceNumbers.DependencyDelivered | src/pending.c:185-197 | Before a delivery, as many messages of each dependency are delivered as its clock counts |
| OvertakenRun.RunsOrderedIff | src/lcb.c:12-50 | In any system where p depends on q, every run keeps p's messages behind those of q that p had delivered if and only if q depends on itself or q's second message cannot spread, its numbers at q or at the middle process being beyond the cap |
| OvertakenRun.RunsExactIff | src/pending.c:160-197 | In any system every run delivers q's messages in order and under their own numbers if and only if q depends on itself or its second message cannot spread |
| OvertakenRun.OnlyFirstDelivered | src/urb.c:231-246 | If q's second message cannot spread, nobody ever delivers any of its messages but the first |
| OvertakenRun.SpreadRange | src/plink.c:53-55 | Everybody's second message can spread with 2 to 64 processes, nobody's with more than 90 |
| OvertakenRun.OvertakenDelivered | src/lcb.c:36-46 | If q does not depend on itself and its second message can spread there is a run in which p logs q's first message and then broadcasts, and q delivers its own second message and p's but never its first |
| OvertakenRun.Overtaken | src/urb.c:157-210 | The same run up to the URB layer, built from the initial state by broadcasts, relays and majorities |
| OvertakenRun.Send | src/beb.c:14-45 | So a process can get any message it has seen to any other without changing anything else |
| FindPendingText.BlockedHeadLoops | src/pending.c:207-226 | Turn by turn as written: if the first pending node is blocked, every later turn tests it again |
| FindPendingText.ReadySingletonFails | src/pending.c:220-225 | If it is ready and alone, it is delivered and then a null node is removed: ERROR_POINTER |
| FindPendingText.ReadyHeadReadsFreed | src/pending.c:207-225 | If it is ready and has a successor, it is delivered but kept, the undelivered successor is unlinked and freed, and the next turn reads that freed node |
| FindPendingText.TextReturnsIff | src/lcb.c:47-54 | As written, the repeated find_pending calls end if and only if all lists are empty, and then nothing changed |
| FindPendingText.TextMatchesIntentIff | src/lcb.c:33-63 | As written, deliver_lcb returns if and only if the message is blocked or nothing is pending, and then memory holds the state that was intended |
| FindPendingText.AddHolds | src/pending.c:37-62 | add_veclist on the nodes in memory appends to the list it is given and keeps the others |
| FindPendingText.SwappedArrivalsFail | src/pending.c:220-221 | Two messages arriving in the wrong order: the intent delivers both and goes on, the text returns an error |
| FindPendingText.DeliverLogsPrefix | src/pending.c:215-216 | Whatever becomes of it, the lines the text has logged at any turn are a prefix of those the intent logs |
| TextRuns.TextCausalOrder | src/lcb.c:12-50 | Localized causal order in every run of the text, in which a process may stop midway through a message, or its receiver spin there while its other threads go on |
| TextRuns.TextNumbersExact | src/pending.c:160-230 | In those runs too logged deliveries are the broadcasts they name, under their own numbers for self-dependent origins |
| TextRuns.TextUrbIntegrity | src/urb.c:119-210 | In those runs too each broadcast is delivered at most once and every copy is exact |
| TextRuns.TextReachableSafe | src/lcb.c:33-63 | The whole safety invariant holds in every state of those runs |
| TextRuns.DeviateSafe | src/pending.c:207-226 | A receive step that the text cuts short keeps it |
| FindPendingText.TextLeaves | src/lcb.c:36-54 | When the text deviates, clock and log are at every turn those after accepting the message or after one more pending delivery, whichever way it fails |
| FifoDelivery.FifoLogsGaplessRun | src/fifo.c:129-170 | After any arrivals, duplicates included, the lines of each process are 1..k in order, k being the longest gapless run that arrived |
| FifoDelivery.FifoIsSelfOnlyCausal | new_design/Things_to_do.md:54-57 | For every duplicate-free arrival sequence deliver_fifo and deliver_lcb with self-only dependencies write the same delivery log |
| FifoDelivery.DeliverFifoStep | src/fifo.c:129-170 | One call keeps the bit of every next message clear and logs exactly next + 1, next + 2, ... up to the new counter, so msg.sequence_num equals next_idx |
| FifoDelivery.FlushRestores | src/fifo.c:147-168 | The loop ends with the bit of the next message clear again |
| FifoDelivery.ClockIsGapless | src/lcb.c:33-63 | With self-only dependencies the clock entry of a process is its longest gapless run of arrivals |
| FifoDelivery.SameNewLines | src/fifo.c:147-168 | One more arrival adds the same lines to the FIFO log and the causal log |
| Checkers.CheckFifo | check_fifo.py:10-33 | The script accepts a log if and only if broadcasts are 1, 2, 3, ... and deliveries gapless per sender |
| Checkers.FifoLogIff | check_fifo.py:10-33 | That is, each line carries one more than the number of lines of its kind and sender before it |
| Checkers.FifoCheckAccepts | check_fifo.py:10-33 | It accepts the log of every process in every reachable state |
| Checkers.BuildMapping | test/testlocal.py:18-34 | The first loop has an entry for every broadcast logged and for nothing else: exactly the deliveries from dependencies that stand before its last line in that log, in their order |
| Checkers.CheckFile | test/testlocal.py:40-57 | The second loop passes a log if and only if every delivery's recorded past was delivered before it and its number is the next; it dies if and only if the first line after which it does not go on is one it dies of |
| Checkers.LineOutcome | test/testlocal.py:44-57 | It dies of a delivery if and only if nothing is recorded for it, its sender has no lane, or the first entry of its past not delivered in time has none; it goes on if and only if it does not die and the number is the next |
| Checkers.CheckPast | test/testlocal.py:48-52 | The inner loop passes if and only if every entry of the past was delivered, and dies if and only if the first entry that was not has no lane |
| Checkers.CheckLocal | test/testlocal.py:18-59 | The script prints True if and only if every delivery in every log is of a logged broadcast, in its sender's order, and after everything from its dependencies that the sender's log has before it; it dies if and only if it dies of some file |
| Checkers.ViolationSeen | test/testlocal.py:47-52 | So it does not print True of logs in which one has "d q j" from a dependency before its only "b i" and another delivers that message before j deliveries from q |
| Checkers.GapSeen | test/testlocal.py:46-56 | Nor of logs with a delivery out of its sender's numbers or of what nobody broadcast |
| Checkers.LocalCheckAccepts | test/testlocal.py:18-59 | It accepts the logs of every reachable state with any dependency lists, if there are no more processes than lanes |
| Checkers.LateEnoughDelivery | src/pending.c:160-169 | Among the first n deliveries of an origin is its n-th message or a later one |
| Checkers.PastIsDelivered | test/testlocal.py:47-52 | What o had logged before its n-th broadcast is matched in every log by the time n messages of o are delivered, whichever they are |
| Tables.Table.Write | src/plink.c:51-70 | A write beyond 8192 is refused and changes nothing; any other is a map update, and the table doubles until the index fits |
| Tables.Table.Read | src/plink.c:44-49 | A read is the map's value, zero beyond the end |
| Tables.Table.Double | src/plink.c:57-66 | Doubling keeps every value, reads zero in the new half, and keeps entries = messages times entries per message |
| Tables.Table.constructor | src/plink.c:32-42 | A new table is zero everywhere |
| Protocol.GrowthBounded | src/plink.c:51-66 | A table grows only if it must and to no more than twice the index, so a write leaves it with the entries it had or at most 16384 |
| Tables.TextGrowthSoundIff | src/plink.c:56-67 | With the clearing as written, a table reads as zero beyond its old end whatever the memory held if and only if it does not grow |
| Tables.TextClearsQuarter | src/plink.c:64-64 | One growth as written clears the first quarter of the new half, and of the rest nothing |
| Tables.ShortReallocSoundIff | src/urb.c:27-38 | With reallocation by entry count as written in src/urb.c and src/fifo.c, the table's entries lie in its memory after a write if and only if the write does not grow it |
| TaskQueue.MsgQueue.Enqueue | src/mqueue.c:60-82 | Appends to the sequence the ring holds, growing when full |
| TaskQueue.MsgQueue.Dequeue | src/mqueue.c:85-101 | Takes the first element, or reports an empty queue and changes nothing |
| TaskQueue.MsgQueue.Realloc | src/mqueue.c:35-56 | Unrolls the ring into one of twice the size with the same contents |
| TaskQueue.MsgQueue.constructor | src/mqueue.c:13-28 | A new queue is empty |
| TaskQueue.WrapIsRemainder | src/mqueue.c:79-97 | The wrapped index is the remainder the code computes |
| TaskQueue.ComesOutInTurn | src/mqueue.c:60-101 | A task with k ahead of it comes out at exactly the (k+1)-th successful dequeue, whatever is enqueued in between |
| VectorList.VecList.Add | src/pending.c:37-62 | Appends a clock and keeps next and previous mutually inverse, the ends and the count right |
| VectorList.VecList.Unlink | src/pending.c:69-79 | The neighbours of the node, or the ends of the list, point past it, for a node at head, middle, tail or alone |
| VectorList.VecList.Remove | src/pending.c:64-87 | The list is the old one without that clock, and well formed |
| VectorList.VecList.Free | src/pending.c:89-105 | Terminates with the list empty |
| CausalProcess.LcbProcess.Deliver | src/lcb.c:33-63 | Updates clock, lists and log exactly as the specification of deliver_lcb |
| CausalProcess.LcbProcess.AcceptAndDrain | src/lcb.c:36-54 | Delivering a message that is not blocked, and what it frees, ends in the drained state |
| CausalProcess.LcbProcess.FindAllPending | src/lcb.c:47-50 | The repeated passes terminate in the drained state |
| CausalProcess.LcbProcess.FindPending | src/pending.c:199-230 | One pass over all lists, with removal, is the specified pass; found tells whether anything was delivered |
| CausalProcess.LcbProcess.WalkList | src/pending.c:206-227 | The inner loop over one list, with nodes unlinked as it goes |
| CausalProcess.LcbProcess.StepNode | src/pending.c:207-226 | One turn of that loop, as intended: the next node is saved, the current one delivered and unlinked if its test succeeds, and the loop advances either way |
| CausalProcess.LcbProcess.TakeNode | src/pending.c:208-225 | Delivering a node unlinks that clock and no other |
| CausalProcess.LcbProcess.TestVecClock | src/pending.c:185-197 | True if and only if no dependency's entry is ahead of the clock |
| CausalProcess.LcbProcess.UpdateAndLog | src/pending.c:160-169 | Increments the origin's entry and logs the new value |
| CausalProcess.LcbProcess.AddPending | src/pending.c:128-141 | Appends to the origin's list and leaves the others alone |
| CausalProcess.LcbProcess.Snapshot | src/pending.c:171-181 | The clock with the own entry set to i - 1 |
| CausalProcess.LcbProcess.LogBroadcast | src/urb.c:213-227 | Appends one broadcast line and changes nothing else |
| CausalProcess.LcbProcess.constructor | src/pending.c:107-158 | Empty lists and a clock of zeroes |
| FifoProcess.FifoLayer.Deliver | src/fifo.c:129-170 | Refused beyond the cap with nothing changed, otherwise exactly the specified deliver_fifo |
| FifoProcess.FifoLayer.FlushLoop | src/fifo.c:147-168 | The loop over consecutive pending messages |
| FifoProcess.FifoLayer.SetBit | src/fifo.c:34-47 | Sets or clears the bit of one message and of no other |
| FifoProcess.FifoLayer.GetBit | src/fifo.c:48-53 | One if and only if the message is pending |
| FifoProcess.FifoLayer.Turn | src/fifo.c:148-168 | One turn of the loop: counts, clears that bit, logs, and looks at the next bit |
| FifoProcess.FifoLayer.constructor | src/fifo.c:24-82 | No bit set, counters zero |
| UrbProcess.UrbLayer.DeliverUrb | src/urb.c:157-210 | It fails exactly when the step does; when it succeeds the tables and the queue end in the state the step gives, and the message goes up exactly when the step delivers it |
| UrbProcess.UrbLayer.SendUrb | src/urb.c:119-154 | Fails exactly when the step does, and otherwise leaves the tables and the queue as the step does |
| UrbProcess.UrbLayer.Relay | src/urb.c:166-192 | First sight of a message: seen, own ack slot, and a copy with this process's mid queued for everybody else |
| UrbProcess.UrbLayer.TryDeliver | src/urb.c:193-208 | Marks delivered and sends up exactly when a majority acked and it was not delivered before |
| UrbProcess.UrbLayer.AddSeen | src/urb.c:69-82 | Sets the seen mark of one broadcast and nothing else, or fails beyond the cap |
| UrbProcess.UrbLayer.AddDelivered | src/urb.c:47-60 | Sets the delivered mark of one broadcast and nothing else, or fails beyond the cap |
| UrbProcess.UrbLayer.SetAckUrb | src/urb.c:102-109 | Sets one ack slot and nothing else, or fails beyond the cap |
| UrbProcess.UrbLayer.SendBeb | src/beb.c:14-45 | Appends the tasks of the step, in the order of BebTasksInOrder, to the shared queue |
| UrbProcess.UrbLayer.constructor | src/da_proc.c:70-89 | The initial tables and queue are the initial state, with 150 * N * N ack entries, 150 * N URB entries and room for 200 tasks |
| UrbProcess.UrbLayer.CanDeliver | src/urb.c:231-246 | True if and only if the row ends strictly inside the table and a strict majority of its slots is set |
| UrbProcess.CountRow | src/urb.c:236-241 | The loop counts exactly the processes whose ack slot for this message is set |
| UrbProcess.SetSlot | src/urb.c:102-109 | Writing a number sets that (message, process) slot and no other |
| UrbProcess.NewSlotTable | src/plink.c:32-42 | A new table has 150 * N * N entries and no slot set |
| UrbProcess.EnqueueAll | src/beb.c:14-45 | The loop of send_beb appends N - 1 tasks, for the processes in order but this one, with the mid and ackid numbers they stand for |
| UrbProcess.OwnNumbers | src/urb.c:121-123 | seen_id and mid are the numbers of (self, i) |
| StackProcess.Stack.DeliverData | src/plink.c:181-218 | The whole data handler, from the link table through URB to the causal log, is the step of the transition system; the ack sent is the step's ack |
| StackProcess.Stack.DeliverAck | src/plink.c:184-190 | The whole ack handler is the step |
| StackProcess.Stack.SendLcb | src/lcb.c:8-30 | One iteration of the broadcast loop is the step: clock snapshot, tables, log line and tasks |
| StackProcess.Stack.PassUp | src/urb.c:193-208 | deliver_urb with deliver_lcb called in it is the step's deliver_urb |
| StackProcess.Stack.CausalHandles | src/lcb.c:33-63 | deliver_lcb changes the causal part of the state as specified and leaves the tables and the queue alone |
| StackProcess.Stack.UrbHandles | src/urb.c:157-202 | deliver_urb up to the call of deliver_lcb changes the URB part of the state as specified and leaves links and causal layer alone |
| StackProcess.Stack.SetDelivered | src/plink.c:123-130 | Records one link delivery, or fails beyond the cap |
| StackProcess.Stack.AttachedClock | src/lcb.c:13-22 | The clock attached to broadcast i |
| StackProcess.Stack.constructor | src/da_proc.c:65-111 | The initial memory is the initial state, with 150 * N * N entries in either link table |
| Sender.SendPl | src/plink.c:145-169 | Sends the task, unchanged and to its destination, at most ten times; returns 0 at the first look that finds the ack and otherwise puts the task back once and returns 42 |
| Sender.SenderTurn | src/sender.c:33-47 | One turn takes the front task and retires it if and only if an ack was found in time, otherwise it is at the back of the queue |
| Sender.HeldAt | src/plink.c:154-167 | At the j-th access of a visit the task has been sent j / 2 times, at most ten, and no look has found an ack |
| Sender.VisitIsSendPl | src/plink.c:145-169 | A thread's accesses between taking and letting go of a task, interleaved with anything, are one call of send_pl: same number of looks and sends, same packets, same end |
| Sender.StretchIsVisit | src/sender.c:33-47 | In any stretch of a run that begins with a thread taking the front task of the queue and ends with its last access, its own steps are a visit of that task, sent no time before |
| Sender.UnderwayAt | src/plink.c:147-166 | At every moment of such a stretch the thread has sent the task half as often as it has looked or sent |
| Sender.SentTenTimes | src/plink.c:147-160 | If no look in such a stretch finds the ack, the thread sends the task exactly ten times and then puts it at the back of the queue |
| Sender.AtMostTenHold | src/da_proc.c:23-23 | In every state of every run the tasks in hand at a process are those of threads 0 to 9 |
| Sender.TenHold | src/sender.c:33-47 | And all ten can be busy at once |
| Messages.NumbersInjective | src/urb.c:121-123 | Distinct broadcasts have distinct seen_ids, distinct (broadcast, process) pairs distinct mids |
| Messages.NumbersInOrder | src/urb.c:121-123 | Numbers grow with the sequence number, then the origin, then the process, which with the next row leaves one numbering |
| Messages.NumbersOnto | src/beb.c:25-26 | Every number is the mid of some (broadcast, process) pair |
| Protocol.GrowTo | src/plink.c:56-67 | The size after growing exceeds the index and never shrinks |
| Wire.RoundTrip | src/layerzero.c:22-72 | Reading the bytes of a serialized message restores everything for data and the four header fields for an ack, whatever junk the buffers held |
| Wire.Reserialize | src/layerzero.c:22-72 | Serializing what was read from a data buffer gives the same bytes |
| Wire.Serialize | src/layerzero.c:22-46 | The buffer has 28 + 4N bytes, four to a word, low byte first: mid, ackid, sender and type, and for data the URB mid, seen id, origin and the clock |
| Wire.LaidOut | src/layerzero.c:32-44 | The same of any image of the words laid out |
| Wire.CopyOut | src/layerzero.c:37-43 | The copied bytes are the image of the words |
| Wire.Deserialize | src/layerzero.c:48-72 | Fails on a null buffer; otherwise the packet has what stands in words 0 to 3, and for a type other than 1 in words 4 to 6 and from 7 on; for type 1 its URB part is untouched |
| Wire.Decoded | src/layerzero.c:48-72 | The same of the decoding function |

## Left out

- Sockets, the address book, signals, thread start and cancellation, and sleeping: only the atomic steps they trigger are modelled (src/receiver.c, src/sender.c, src/da_proc.c).
- A send that fails: `sendto` errors end a sender thread in the code; in the model packets are lost in the network only.
- Data races on the URB tables, the queue and the clock between the main thread and the receiver: one broadcast iteration and one handled message are atomic, and sender threads interleave at each access to shared memory.
- Eventual delivery under fair loss and fair scheduling: `Continuations` shows that delivery always remains possible, not that every fair run reaches it.
- Membership-file parsing (src/parser.c) and the dependency store (src/dependencies.c): N and the lists are parameters.
- Log text, buffering and what is lost of the buffer when a process exits (src/log.c): a log is the sequence of its events.
- Memory management: `malloc` failures, ownership of clock vectors, a clock freed while a queued task still uses it.
- 32-bit wrap-around of numbers: table writes are refused beyond 8192, but a number beyond 2^32 would wrap before that check and does not in the model.
- src/causal.c: stubs that are not linked.
- FIFO on top of the wire format: `fifo_msg_t` is not serialized; deliver_fifo is modelled against any arrival sequence.
- Python's view of a malformed log: a line naming process 0 makes the model's script die where Python's index -1 would read the last lane. The script's five lanes are a parameter.
- SequenceNumbers.CausalIffSelfDependent: the failing direction is shown on arrival sequences that two causal layers can receive.
- TableEdge.DeliveredIffNotLastRow: says nothing of a message whose row was once the last one of a table that has grown since; both outcomes are reachable (Witnesses.LastRowLost, Witnesses.LastRowInTime), and no run changes it once the table has grown in time (StaysInTime) or the last packet has come in vain (MissedForever).
- TextRuns.TextCausalOrder: after the turn that reads freed memory the process is stopped; what the code does from there is not defined.
- StackProcess.Stack.DeliverData: the sender threads' hands and the history fields are not part of one process's memory here; sender threads are treated in Sender.
- Sender.SendPl: what each look at the ack table finds is a parameter, since the receiver changes the table in between; VisitIsSendPl and StretchIsVisit tie the looks to the tables of a run.
- Sender.SenderTurn: likewise.
- UrbProcess.UrbLayer.DeliverUrb: on an error return the contract says only that the process exits, not what the tables it leaves behind hold.
- UrbProcess.UrbLayer.SendUrb: likewise, and the log line is written by the caller, which holds the causal layer's log.
