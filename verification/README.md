# OS_5: proofs about the concurrent cores

Dafny models of the concurrent programs of the OS_5 lab repository, and proofs that hold for every
interleaving, any number of processes and any run length. `dafny verify dfyconfig.toml` checks everything.

Each protocol has two forms that are proved to agree:

- a transition system on values: a `State`, deterministic step functions that make one atomic step of one
  process, and `Run` over an arbitrary list of steps, arrivals, signals and kills. The theorems are lemmas about it;
- a class that keeps the same data in arrays and fields, with methods that update them in place. Every
  method ensures that the new state is the step function's result on the old one, and keeps the invariant.

| modules | source | what is modelled |
|---|---|---|
| `BakeryProtocol`, `BakeryInvariant`, `BakerySafety`, `BakeryLoops`, `BakeryProgress`, `BakeryBoundedWait`, `BakeryLockout`, `BakeryServer`, `BakeryAlone` | working_rpc_another/bakery/bakery_server.c | `get_ticket`, `wait_for_turn` and the serving part of `submit_request_1_svc`. Every read and write of `choosing`, `number`, the mutex and the shared reply is a step of its own; the test of lines 44-46 takes five steps |
| `Semaphores` | the `semop` calls of lab_03 | one interpreter for groups of `sembuf` operations: in order, all or nothing, 0 waits for zero |
| `RingBody` | lab_03/prod_cons.c, lab_03/prod_cons_mac.c | the statements between entering and leaving the critical section, which the two programs share |
| `SysVBuffer`, `SysVTheorems`, `SysVProgress` | lab_03/prod_cons.c | producers and consumers on the interpreter, with SIGINT, EINTR and SIGALRM at any point |
| `PosixBuffer`, `PosixRefinement`, `PosixTheorems`, `PosixProgress` | lab_03/prod_cons_mac.c | the same with separate waits and posts, and its refinement of the System V program |
| `BufferPrograms` | both | shared memory, semaphores and process table updated in place |
| `ReadersWriters`, `ReadersWritersTheorems`, `ReadersWritersStarvation`, `ReadersWritersProgress`, `ReadersWritersProgram` | lab_03/writer_reader.c | readers and writers on the interpreter; increment and wrap of the letter are separate steps |
| `BiosTimer` | reports/01/int_8h.txt | tick counter, midnight byte, motor countdown |
| `XdrSpec`, `XdrStream`, `BakeryXdr` | working_rpc_another/bakery/bakery_xdr.c | the message codecs over a memory stream |
| `CalculatorHandOff` | RPC/calc/calculator_server.c | the worker and the caller of one call, with every set-up call granted or refused |

## Assumptions

- Memory is sequentially consistent and every step is atomic. Tickets, letters' histories and semaphore values
  are unbounded integers; `MAX_CLIENTS` (100) and the numbers of processes are arbitrary.
- Bakery: client ids are in range, at most one request per id is in flight, handlers may run concurrently.
  One handler at a time, as the generated dispatcher runs them, is the special case of `BakeryAlone`.
- A process that has left, whether by return, by exit or killed, keeps the program counter it had, so that the
  counts of processes inside include the dead.
- A scheduled step that has to wait leaves the state unchanged; an action that is not enabled does nothing.
- EINTR: a System V call can be interrupted only while its group cannot proceed, because whoever makes it possible
  completes the sleeper's call. A process asleep in `sem_wait` can be interrupted at any time before it is through, also
  after a post has made the semaphore positive.
- Calculator: after a refused `pthread_attr_init`, `pthread_create` is taken to do one of its two things all the same.
- `char` is signed, as on x86. The trailing part of calculator_server.c is read as if the brace on line 107 were
  not there; as it stands the function would end before its return.

## Findings

- The tie-break on line 46 of bakery_server.c never decides anything, because outstanding tickets are distinct.
- Nor is the loop on `choosing[i]` of line 40 needed for mutual exclusion or for the order of service: tickets are
  taken under the mutex, and both hold even if every client may skip the loop at any time.
- Under arrivals that never stop and a mutex that need not be fair, a request is sure to be served within some
  number of rounds exactly when it is past the lock of line 18, or its client is the only one. A request before that
  lock can be passed over for ever from every state and with every other number of clients.
- In prod_cons_mac.c an interrupt during the wait for `sem_binary` loses the unit already taken. After a
  shutdown without kills all 32 units are there exactly when no process left that way; `UnitCanBeLost` is a run in
  which one is missing. At most 31 can be lost so, hence without kills there is no deadlock as long as a producer
  and a consumer run. In prod_cons.c nothing is lost without kills.
- A child that `alarm` kills inside the section of either buffer keeps everybody else out from then on, in every
  run. In writer_reader.c a writer killed inside keeps everybody out, a reader the writers. The three `StuckIff` say
  exactly when nobody can move any more, whoever is still running, and a run leads there in each program.
- SIGINT can leave either buffer program hanging without any kill: a consumer that has tested its flag goes to sleep
  before the empty ring although its flag is down by then, and the producers leave by theirs (or the other way round
  with the full ring). `ShutdownEnds` shows that this is the only way not to end; writer_reader.c always ends.
- The queue semaphores of writer_reader.c are 0 whenever nobody is in a call, so they give writers no priority:
  a waiting writer, that is one blocked before every action of the run, can be passed any number of times exactly
  when the program has two readers. With one reader or none, one letter printed or one write completed is the most
  that gets past it.
- The tick counter misses its reset exactly when it starts at 1800B0h or above, and then runs until its 32 bits
  overflow: from 1800B0h the midnight byte is first set after 2^32 interrupts.
- In calculator_server.c a refused `pthread_create` leaves the attribute object behind: lines 87-91 give back
  everything else that was acquired, and every other refusal gives back all. The result of `pthread_attr_init` is
  ignored, so when that is refused `pthread_create` gets an object that was never initialised.
- The decoder of the bakery messages accepts words that are not chars and cuts them off; a message comes back
  unchanged exactly when its words are chars.

## Model

| member | source | states |
|---|---|---|
| BakerySafety.ServiceIsExclusive | working_rpc_another/bakery/bakery_server.c:38-85 | in every reachable state at most one client is between leaving `wait_for_turn` and clearing its number |
| BakeryInvariant.RunKeepsInv | working_rpc_another/bakery/bakery_server.c:17-85 | every interleaving of arrivals and steps keeps the invariant: outstanding tickets are consecutive in the order of issue, and for every index a waiting client has passed the number there is 0 or larger than its own |
| BakerySafety.TicketsFormInterval | working_rpc_another/bakery/bakery_server.c:22-29 | the outstanding tickets are exactly lo, lo+1, ..., one per ticketed client, never more than there are client ids |
| BakerySafety.TicketIsFresh | working_rpc_another/bakery/bakery_server.c:22-29 | the ticket assigned after the interleaved scan exceeds all outstanding ones, follows one of them directly, and is 1 exactly when there is none |
| BakerySafety.ServedInTicketOrder | working_rpc_another/bakery/bakery_server.c:29-84 | the clients cleared so far are a prefix of the clients that got a ticket; the rest of that history is exactly the ticketed clients |
| BakerySafety.NobodyOvertakes | working_rpc_another/bakery/bakery_server.c:29-50 | while a client keeps its ticket, no step changes the ticket or puts a client in front of it |
| BakerySafety.NobodyOvertakesInRun | working_rpc_another/bakery/bakery_server.c:29-50 | the same over any run: those ahead at the end were ahead at the start, and the ticket read again later is the one assigned |
| BakerySafety.ReplyIsOwn | working_rpc_another/bakery/bakery_server.c:63-84 | a handler waits and serves with the ticket in `number`; when it clears the number the shared reply is its own, although all handlers write it |
| BakerySafety.OneChooser | working_rpc_another/bakery/bakery_server.c:18-32 | at most one `choosing` flag is up, and its owner holds the mutex |
| BakerySafety.TieBreakNeverFires | working_rpc_another/bakery/bakery_server.c:46 | equal tickets with a smaller index are never found |
| BakeryLoops.PassesWhenLowered | working_rpc_another/bakery/bakery_server.c:40-42 | in every run, a client that has got past the test of `choosing[i]` did so by its own step from a state in which that flag was down |
| BakeryLoops.WaitsForChooser | working_rpc_another/bakery/bakery_server.c:40-42 | as long as the flag stays up a client stands at that test |
| BakeryLoops.PassesLowered | working_rpc_another/bakery/bakery_server.c:40-44 | with the flag down its next step takes it to the test of `number[i]` |
| BakeryLoops.TestDecides | working_rpc_another/bakery/bakery_server.c:44-49 | without interference the five reads decide the condition of lines 44-46, and the client tests the same index again or goes on |
| BakeryLoops.ScanDecides | working_rpc_another/bakery/bakery_server.c:23-27 | without interference an iteration of the scan takes the larger of the maximum so far and `number[i]` |
| BakeryLoops.ChoosingIsNotNeeded | working_rpc_another/bakery/bakery_server.c:40-42 | with any client free to skip that loop at any time, still at most one is in service and service goes by the order of the tickets |
| BakeryProgress.SomebodyIsReady | working_rpc_another/bakery/bakery_server.c:18-49 | whenever a request is in flight some client owns the mutex, or can move without waiting, or waits with the oldest ticket |
| BakeryProgress.StepTotal | working_rpc_another/bakery/bakery_server.c:17-90 | no step adds to the remaining work, and one that takes none away only repeats a wait-loop test or a blocked lock |
| BakeryProgress.ReadyStep | working_rpc_another/bakery/bakery_server.c:38-49 | a client that is not held up and spins all the same comes closer to the end of its test with each step |
| BakeryProgress.FairRoundProgress | working_rpc_another/bakery/bakery_server.c:17-90 | any stretch of a schedule that gives every client six steps, interleaved in any way, gets work done, unless none is left |
| BakeryProgress.EveryRequestCompletes | working_rpc_another/bakery/bakery_server.c:17-90 | without further arrivals every request in flight is served and returns, within a bound on the number of fair rounds that depends on the number of clients only |
| BakeryBoundedWait.TicketIsServed | working_rpc_another/bakery/bakery_server.c:29-84 | with arrivals going on for ever and a mutex that need not be fair, whoever holds a ticket is served within n(25 + 8n) rounds that give each client six steps |
| BakeryLockout.ServedWithinIff | working_rpc_another/bakery/bakery_server.c:17-84 | for every reachable state and unserved request: some number of such rounds is always enough, whatever arrives, exactly when the request is past the lock of line 18 or its client is the only one; and then 12 + 4n + n(25 + 8n) are |
| BakeryLockout.CanBeLockedOut | working_rpc_another/bakery/bakery_server.c:18 | from every state with a client before that lock and others about, any number of such rounds can go by without the client getting or giving back a ticket |
| BakeryLockout.TicketlessCanStarve | working_rpc_another/bakery/bakery_server.c:18 | for every number of clients but one, each of them can stand before the lock from the start and never get a ticket |
| BakeryServer.Server.constructor | working_rpc_another/bakery/bakery_server.c:11-14 | the initial globals satisfy the invariant |
| BakeryServer.Server.Arrive | working_rpc_another/bakery/bakery_server.c:53-63 | a request arrives; the invariant is kept |
| BakeryServer.Server.GetTicketStep | working_rpc_another/bakery/bakery_server.c:17-35 | one step of `get_ticket` in place is the abstract step, for every interleaving |
| BakeryServer.Server.WaitForTurnStep | working_rpc_another/bakery/bakery_server.c:38-50 | one step of `wait_for_turn` in place is the abstract step and writes only the client's own variables |
| BakeryServer.Server.ServeRequestStep | working_rpc_another/bakery/bakery_server.c:73-85 | one step of filling the reply and clearing the number in place is the abstract step |
| BakeryAlone.SubmitRequest | working_rpc_another/bakery/bakery_server.c:53-90 | a handler dispatched alone returns with ticket 1 for its own client and leaves numbers, flags and mutex as it found them |
| Semaphores.GroupMeaning | lab_03/writer_reader.c:28-42 | a group proceeds exactly when each operation may proceed on what the earlier ones leave, and then adds its sum to each semaphore |
| Semaphores.Call | lab_03/writer_reader.c:51 | the call on semaphores in place: all operations or, after taking back what was applied, none |
| RingBody.BodyKeeps | lab_03/prod_cons.c:56-90 | every statement inside the section keeps the ring consistent: pointers, letter, unread slots and histories |
| RingBody.PointersInRing | lab_03/prod_cons.c:56-90 | a store goes to a slot of the ring that holds no unread letter, a read to the oldest unread one |
| SysVBuffer.StartMeaning | lab_03/prod_cons.c:29-35 | a start group is one guarded decrement of two semaphores |
| SysVBuffer.EndMeaning | lab_03/prod_cons.c:31-37 | an end group increments two semaphores and never waits |
| SysVBuffer.RunKeepsInv | lab_03/prod_cons.c:44-97 | every run with signals and kills keeps semaphore counts and ring contents in step |
| SysVTheorems.Conservation | lab_03/prod_cons.c:29-37 | EMPTY + FULL + processes inside is 32 and BINARY + processes inside is 1, counting the dead; so at most one is inside |
| SysVTheorems.ConsumedInOrder | lab_03/prod_cons.c:56-90 | the letters consumed are a prefix of those produced, and the n-th is 'a' + n mod 26 |
| SysVTheorems.RingAtRest | lab_03/prod_cons.c:142-151 | with nobody inside the pointers are in the ring, FULL counts the unread letters and the slots from `consumep` on hold them in order |
| SysVTheorems.AccessesAreSafe | lab_03/prod_cons.c:56-90 | with kills at any point no unread slot is overwritten and every read finds the oldest unread letter |
| SysVTheorems.StuckIff | lab_03/prod_cons.c:44-97 | whoever is running and whoever died where: nobody can move exactly when all want in and somebody died inside, or only producers run and 32 letters are unread, or only consumers run and none is |
| SysVTheorems.StuckWithBothIff | lab_03/prod_cons.c:44-97 | with a producer and a consumer running only a death inside is left |
| SysVTheorems.ShutdownCanHang | lab_03/prod_cons.c:45-46 | a run of steps and SIGINTs alone after which a consumer with its flag down waits for ever |
| SysVTheorems.StuckIsReached | lab_03/prod_cons.c:44-97 | such a state is reached: a producer is killed inside, another and a consumer want in |
| SysVTheorems.NoDeadlock | lab_03/prod_cons.c:44-97 | without kills and interrupts some process can always move |
| SysVProgress.FaultEffect | lab_03/prod_cons.c:39-54 | SIGINT, an interrupted call or a kill changes nothing but the process it hits; SIGINT only lowers its flag, the others end it where it stands |
| SysVProgress.FaultPossibleIff | lab_03/prod_cons.c:45-54 | an interrupt hits exactly a process that waits at its entry, because somebody is inside or the ring is full or empty for it |
| SysVProgress.InterruptedLeaves | lab_03/prod_cons.c:45-54 | in every later run the interrupted process stays gone and outside |
| SysVProgress.NeverEntersAgain | lab_03/prod_cons.c:39-44 | a lowered flag stays down, and in every later run the process does not come to its entry again |
| SysVProgress.ShutOut | lab_03/prod_cons.c:44-97 | after a death inside the shared memory never changes and nobody enters, in any run |
| SysVProgress.ShutdownEnds | lab_03/prod_cons.c:39-97 | without kills, once every flag is down, at most 8 steps of each process happen, and then all have left or those of one role wait at the full or empty ring |
| SysVProgress.Throughput | lab_03/prod_cons.c:44-97 | with n processes and any faults, all but 7n of the steps that happen come at 8 a letter put or read |
| SysVTheorems.ShutdownIff | lab_03/prod_cons.c:161-165 | after everybody has left, BINARY is 1 and all 32 units are there exactly when nobody died inside |
| SysVTheorems.ShutdownAccounting | lab_03/prod_cons.c:45-79 | leaving by flag or EINTR alone: BINARY = 1, EMPTY + FULL = 32, FULL = produced - consumed |
| PosixRefinement.StepRefines | lab_03/prod_cons_mac.c:40-116 | each step, signal or kill of the POSIX program is a stutter or an enabled action of the System V program on the abstract state; falling asleep is a stutter |
| PosixRefinement.RunRefines | lab_03/prod_cons_mac.c:40-116 | every POSIX run maps to a System V run, all of whose actions are enabled, with the same memory and the same letters put and read |
| PosixRefinement.ReachableRefines | lab_03/prod_cons_mac.c:118-177 | from the same initial values, the abstraction of every reachable POSIX state is a reachable System V state |
| PosixTheorems.ConsumedInOrder | lab_03/prod_cons_mac.c:59-105 | the order of letters carries over |
| PosixTheorems.Conservation | lab_03/prod_cons_mac.c:42-73 | the semaphores and the units in the hands of processes, dead or alive, add up to 32; BINARY and the processes inside to 1 |
| PosixTheorems.ShutdownAccounting | lab_03/prod_cons_mac.c:50-94 | after a shutdown without kills EMPTY + FULL + lost is 32, lost being the number of EINTR exits in the wait for `sem_binary` |
| PosixTheorems.UnitCanBeLost | lab_03/prod_cons_mac.c:87-94 | a concrete run without kills after which only 31 units are left |
| PosixTheorems.LossIsBounded | lab_03/prod_cons_mac.c:50-94 | without kills fewer than 32 processes ever leave the wait for `sem_binary` by EINTR |
| PosixTheorems.StuckIff | lab_03/prod_cons_mac.c:40-116 | whoever is running, kills at any point: nobody can move exactly when all are in a wait, those who want a first unit find none, and somebody died inside or all are at the first wait; in that last case the dead hold what is missing from the 32 units |
| PosixTheorems.StuckWithBothIff | lab_03/prod_cons_mac.c:40-116 | with a producer and a consumer running: either somebody died inside and no first unit is left for those who want one, or all want a first unit and the dead hold all 32 |
| PosixTheorems.ShutdownCanHang | lab_03/prod_cons_mac.c:41-42 | a run of steps and SIGINTs alone after which a consumer with its flag down waits for ever |
| PosixTheorems.StuckAtDoorsIff | lab_03/prod_cons_mac.c:40-116 | with nobody dead beyond the waits that is: all 32 units went with processes that left the wait for `sem_binary`, and everybody wants one |
| PosixTheorems.NoDeadlock | lab_03/prod_cons_mac.c:40-116 | without kills, and with any number of interrupts, some process can move as long as a producer and a consumer run, also when several hold a first unit |
| PosixProgress.FaultEffect | lab_03/prod_cons_mac.c:35-57 | the same for the POSIX program, where an interrupt in the second wait is counted besides |
| PosixProgress.FaultPossibleIff | lab_03/prod_cons_mac.c:42-57 | an interrupt hits exactly a process that sleeps, and only a process at one of its waits sleeps |
| PosixProgress.InterruptedLeaves | lab_03/prod_cons_mac.c:42-57 | in every later run the interrupted process stays gone and outside |
| PosixProgress.NeverEntersAgain | lab_03/prod_cons_mac.c:35-41 | a lowered flag stays down, and in every later run the process does not come to its first wait again |
| PosixProgress.ShutOut | lab_03/prod_cons_mac.c:40-116 | after a death inside the shared memory never changes and nobody enters, in any run |
| PosixProgress.ShutdownEnds | lab_03/prod_cons_mac.c:35-116 | without kills, once every flag is down, at most 10 steps of each process happen, and then all have left or those of one role wait at the first semaphore, which is 0 |
| PosixProgress.Throughput | lab_03/prod_cons_mac.c:40-116 | with n processes and any faults, all but 9n of the steps that happen come at 10 a letter put or read |
| PosixTheorems.StuckIsReached | lab_03/prod_cons_mac.c:40-116 | with a kill inside it does get stuck |
| BufferPrograms.SharedRing.Produce | lab_03/prod_cons.c:83-90 | the producer's statements on the shared segment in place |
| BufferPrograms.SharedRing.Consume | lab_03/prod_cons.c:56-61 | the consumer's statements in place; what it prints is what joins the history |
| BufferPrograms.SysVProgram.Step | lab_03/prod_cons.c:44-97 | one step of a process in place is the abstract step; it reports whether the group had to wait |
| BufferPrograms.SysVProgram.Fault | lab_03/prod_cons.c:39-54 | SIGINT, EINTR or SIGALRM in place |
| BufferPrograms.PosixProgram.Step | lab_03/prod_cons_mac.c:40-116 | one step of a process in place is the abstract step, or it falls asleep in a wait and reports that; the System V invariant of the abstraction is kept |
| BufferPrograms.PosixProgram.Fault | lab_03/prod_cons_mac.c:35-57 | SIGINT, EINTR or SIGALRM in place |
| ReadersWriters.StartReadMeaning | lab_03/writer_reader.c:28-32 | a reader's five operations are one increment of ACTIVE_READERS guarded by two zeros |
| ReadersWriters.StartWriteMeaning | lab_03/writer_reader.c:36-40 | a writer's five operations are one increment of ACTIVE_WRITER guarded by two zeros |
| ReadersWriters.RunKeepsInv | lab_03/writer_reader.c:49-95 | every run with signals and kills keeps counts, letter and log of printed letters in step |
| ReadersWritersTheorems.Exclusion | lab_03/writer_reader.c:28-42 | the active semaphores count who is inside, dead or alive; a writer inside is alone; the queue semaphores are 0 |
| ReadersWritersTheorems.ReadersSeeWholeWrites | lab_03/writer_reader.c:61-85 | every letter printed by a reader is 'a' + complete writes mod 26, and never older than one printed before |
| ReadersWritersTheorems.LetterIsStableForReaders | lab_03/writer_reader.c:61 | with a reader about to print no half-done write is visible |
| ReadersWritersTheorems.EntryIff | lab_03/writer_reader.c:51-72 | a reader has to wait exactly when a writer is inside, a writer exactly when anybody is |
| ReadersWritersTheorems.StuckIff | lab_03/writer_reader.c:49-95 | nobody running can move exactly when all want in and a writer died inside, or a reader did and only writers run |
| ReadersWritersTheorems.StuckIsReached | lab_03/writer_reader.c:49-95 | such a state is reached: a reader is killed while it prints, and the only writer waits |
| ReadersWritersProgress.FaultEffect | lab_03/writer_reader.c:44-59 | SIGINT, an interrupted call or a kill changes nothing but the process it hits; SIGINT only lowers its flag, the others end it where it stands |
| ReadersWritersProgress.FaultPossibleIff | lab_03/writer_reader.c:51-80 | an interrupt hits exactly a process that somebody inside keeps waiting at its entry |
| ReadersWritersProgress.InterruptedLeaves | lab_03/writer_reader.c:51-80 | in every later run the interrupted process stays gone and outside |
| ReadersWritersProgress.NeverEntersAgain | lab_03/writer_reader.c:44-71 | a lowered flag stays down, and in every later run the process does not come to its entry again |
| ReadersWritersProgress.WriterShutsOut | lab_03/writer_reader.c:49-95 | after a writer has died inside, letter and log never change and nobody enters, in any run |
| ReadersWritersProgress.ReaderShutsOut | lab_03/writer_reader.c:49-95 | after a reader has died inside, the letter never changes and no writer enters, in any run |
| ReadersWritersProgress.ShutdownEnds | lab_03/writer_reader.c:44-95 | without kills, once every flag is down, at most 5 steps of each process happen, and some process can step until all have left |
| ReadersWritersTheorems.ShutdownIff | lab_03/writer_reader.c:115-130 | after everybody has left all four semaphores are 0 exactly when nobody died inside |
| ReadersWritersTheorems.CleanShutdown | lab_03/writer_reader.c:49-95 | leaving by flag or EINTR alone leaves all four semaphores 0 |
| ReadersWritersStarvation.StarvationIff | lab_03/writer_reader.c:28-95 | for every table of readers and writers, a writer that is blocked before every action can be passed by any number of prints and writes exactly when the table has two readers, and otherwise not even by two |
| ReadersWritersStarvation.AtMostOnePasses | lab_03/writer_reader.c:28-95 | with at most one reader, prints and completed writes go up by one at most in any run, with kills or without, before each action of which the writer is blocked |
| ReadersWritersStarvation.ReadersCanStarveWriter | lab_03/writer_reader.c:28-40 | with two readers in any table and any n there is a run of steps alone that prints n letters while the writer is blocked before every step |
| ReadersWritersStarvation.RelayIsReached | lab_03/writer_reader.c:97-162 | the state from which that run starts is reachable for every table with a writer and two readers |
| ReadersWritersProgram.Program.Print | lab_03/writer_reader.c:61 | the letter printed in place belongs to the complete writes |
| ReadersWritersProgram.Program.Write | lab_03/writer_reader.c:82-85 | increment and wrap in place |
| ReadersWritersProgram.Program.Step | lab_03/writer_reader.c:49-95 | one step of a process in place is the abstract step; it reports whether the group had to wait |
| BiosTimer.DataArea.Interrupt | reports/01/int_8h.txt:18-53 | one interrupt in place; al is 8 when the day ends and 0 otherwise |
| BiosTimer.CounterWithinDay | reports/01/int_8h.txt:18-36 | from a start below a day, n interrupts leave (start + n) mod 1573040, and the midnight byte is 1 exactly when the sum reached 1573040 |
| BiosTimer.CounterClosedForm | reports/01/int_8h.txt:18-36 | the same from any start, including those from which the reset is missed |
| BiosTimer.MidnightIff | reports/01/int_8h.txt:28-36 | from any start the midnight byte is 1 exactly from interrupt DAY - start on, or 2^32 - start + DAY when the start is a day or more |
| BiosTimer.DayIsNoticedIff | reports/01/int_8h.txt:28-34 | a day's worth of interrupts sets the midnight byte, and brings the counter back to its start, exactly when the start is below a day |
| BiosTimer.ResetIsMissed | reports/01/int_8h.txt:28-34 | from 1800B0h a day goes by without the byte being set; it is set only after 2^32 interrupts |
| BiosTimer.MotorClosedForm | reports/01/int_8h.txt:43-50 | the motor byte is (m0 - n) mod 256; as often as it has reached 0 the command 0Ch has gone out, nothing else, and the flag byte has the matching closed form |
| XdrSpec.RequestRoundTrip | working_rpc_another/bakery/bakery_xdr.c:8-23 | decoding the 604 bytes of an encoded request gives it back and leaves any trailing bytes |
| XdrSpec.ResponseRoundTrip | working_rpc_another/bakery/bakery_xdr.c:25-82 | decoding the 412 bytes of an encoded response gives it back and leaves any trailing bytes |
| XdrSpec.CharsCanonicalIff | working_rpc_another/bakery/bakery_xdr.c:16-21 | encoding a decoded vector gives the same bytes exactly when every word was in the range of a char |
| XdrSpec.ResponseCanonicalIff | working_rpc_another/bakery/bakery_xdr.c:51-69 | the same for whole responses |
| XdrSpec.RequestCanonicalIff | working_rpc_another/bakery/bakery_xdr.c:8-23 | for whole requests: both their vectors must hold chars |
| XdrSpec.WordIsCutOff | working_rpc_another/bakery/bakery_xdr.c:16-21 | the word 256 is accepted, becomes the char 0, and does not come back |
| XdrSpec.WordWeights | working_rpc_another/bakery/bakery_xdr.c:14-43 | an integer goes out in two's complement, most significant byte first |
| XdrSpec.ValueOfWord | working_rpc_another/bakery/bakery_xdr.c:14-59 | and comes in so |
| XdrSpec.NarrowMod | working_rpc_another/bakery/bakery_xdr.c:16-21 | a decoded char is its word modulo 256 |
| XdrSpec.RequestLayout | working_rpc_another/bakery/bakery_xdr.c:14-21 | the 604 bytes of a request: the id, 50 words of type, 100 words of details, each at its place, chars sign-extended |
| XdrSpec.ResponseLayout | working_rpc_another/bakery/bakery_xdr.c:32-78 | the 412 bytes of a response: id, ticket, position, 100 words of status |
| XdrStream.Stream.PutChars | working_rpc_another/bakery/bakery_xdr.c:16-21 | `xdr_vector` over `xdr_char`, encoding: succeeds exactly when the bytes fit, and writes nothing else |
| XdrStream.Stream.GetChars | working_rpc_another/bakery/bakery_xdr.c:16-21 | the same, decoding |
| BakeryXdr.EncodeRequest | working_rpc_another/bakery/bakery_xdr.c:8-23 | succeeds exactly with 604 bytes left and writes exactly the encoding |
| BakeryXdr.DecodeRequest | working_rpc_another/bakery/bakery_xdr.c:8-23 | rejects every shorter input and otherwise fills the structure with what the bytes encode |
| BakeryXdr.EncodeResponse | working_rpc_another/bakery/bakery_xdr.c:32-50 | succeeds exactly with 412 bytes left; the bytes are the same on the inline and on the field-by-field path |
| BakeryXdr.DecodeResponse | working_rpc_another/bakery/bakery_xdr.c:51-70 | rejects every shorter input; the result is the same on both paths |
| BakeryXdr.Transfer | working_rpc_another/bakery/bakery_xdr.c:25-82 | in all four combinations of paths the response received is the response sent |
| CalculatorHandOff.ReplyIsResult | RPC/calc/calculator_server.c:18-102 | the caller leaves its loop only with the result stored, and replies with the result of the operation, or with 0 where it had to give up |
| CalculatorHandOff.ReplyMeaning | RPC/calc/calculator_server.c:21-41 | the result by operation code: 0 sum, 1 difference, 2 product, 3 quotient, and 0 for a division by 0 and any other code |
| CalculatorHandOff.WakeupRetests | RPC/calc/calculator_server.c:97-99 | after a spurious wakeup the caller takes the mutex, tests the flag, and sleeps again as before if nothing is done |
| CalculatorHandOff.NoUseAfterFree | RPC/calc/calculator_server.c:43-106 | the structure, its mutex and condition variable are alive for every step that uses them or gives them back; they go only when the worker has returned or was never started |
| CalculatorHandOff.NoLostWakeup | RPC/calc/calculator_server.c:43-99 | once the worker has signalled, the caller neither sleeps nor is about to |
| CalculatorHandOff.CallIsBounded | RPC/calc/calculator_server.c:18-110 | each step brings the end nearer, a spurious wakeup puts it off by at most three |
| CalculatorHandOff.CallEnds | RPC/calc/calculator_server.c:18-110 | under every schedule and with any refusals a call takes at most 23 steps and three per spurious wakeup, and can only stop with the right reply |
| CalculatorHandOff.LeftAliveIff | RPC/calc/calculator_server.c:57-106 | at the end of every call, whatever was refused, nothing is left alive but the attribute object, and that exactly when it was initialised and the thread was refused |
| CalculatorHandOff.AttrIsReadyIff | RPC/calc/calculator_server.c:83-94 | `pthread_create` and `pthread_attr_destroy` find an initialised attribute object exactly when `pthread_attr_init` was not refused |
| CalculatorHandOff.AttrGoesWrong | RPC/calc/calculator_server.c:83-91 | a run that leaves the attribute object behind, and one that comes to `pthread_create` without one |
| CalculatorHandOff.Call.SetUp | RPC/calc/calculator_server.c:57-92 | one set-up call in place, granted or refused |
| CalculatorHandOff.Call.GiveBack | RPC/calc/calculator_server.c:71-106 | one step of giving back in place, after the call or after a refusal |
| CalculatorHandOff.Call.StepThread | RPC/calc/calculator_server.c:18-49 | one step of the worker in place |
| CalculatorHandOff.Call.StepService | RPC/calc/calculator_server.c:94-102 | one step of the caller in place, from the start of the thread to the reading of its result |

## Left out

- The two event versions in lab_04, the fork, pipe, signal and daemon exercises, and the generated RPC stubs and
  clients.
- Bakery: output, `sleep`, the text of the reply's status, what happens to the shared reply after the number is
  cleared, the unused `next_ticket`, and the two counting procedures at the end of bakery_server.c.
- Bakery: fairness of the mutex, which POSIX does not promise.
- Failures of system calls other than EINTR, the SEMVMX limit of a System V semaphore, and the parents' `wait` loops.
- PosixRefinement.StepRefines: an EINTR maps to a death at the entry where the abstract group could proceed; a
  System V process would not have been blocked there.
- The layout of the shared segment, which is modelled as an array of 32 slots with indices.
- Int 8h: the call of interrupt 1Ch, `sub_1`, the interrupt controller, and the end of the listing.
- XDR: the XDR_FREE operation, and what a failed decoder has already stored in the structure.
- Calculator: rounding of `float` (arithmetic is over the reals), and the static result shared by several calls.
