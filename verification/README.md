# A verified model of the process-control daemon

The repository holds a daemon that launches programs for its clients, watches them, and reports what
happens to them. It exists twice: in C, as one epoll loop over children, pipes, signals and
connections, and in Rust, as one tokio task per connection. Clients talk to both over length-prefixed
FlatBuffers messages. This project models the behaviour of these programs in Dafny and proves what
they promise over every run, every interleaving and every input.

Run `dafny verify dfyconfig.toml` to check everything.

## How the model is laid out

The C daemon:

- `ProcessManager.dfy` is the child table: an array of records that a `Manager` object overwrites in
  place, with the functions that specify each operation.
- `DaemonState.dfy` is the daemon, its kernel and its children as one state machine. A label is one
  handler run or one action of a child; whatever the kernel, a child or a client decides is part of
  the label. `Enabled` holds the kernel's guarantees: no pid is handed out again before its bearer has
  been waited for, malloc returns no block in use, open, accept and pipe hand out the lowest free
  descriptor, a SIGCHLD is dropped while another is pending. `Step` faults on anything C does not define
  and on any stack or descriptor given back by a record that no longer owns it.
- `StepEffects.dfy` says of each step what is new, what is gone, what is sent and what stays, from the
  states before and after it; `Events.dfy` says the same of each event of the loop, with the steps it
  amounts to.
- `EventLoop.dfy` is the loop and its handlers as methods of a `Daemon` object; each is proved to take
  exactly the steps of the state machine, and the whole loop, with children acting in between, to stay
  in a run. `PlainDay.dfy` is an instance.
- `TableSafety.dfy`, `RunSafety.dfy`: why the table is memory-safe over whole runs. A released record
  keeps its pid and its descriptor, the lookup never tests occupancy, records leak, and pids come
  back. Live children keep their records and stacks in every run; that the scan never stops at a
  released record rests on more, namely that below a tracked child's record (or anywhere, for an
  untracked child) every record bearing its pid is occupied. `StrayRuns.dfy` follows the code beyond a
  close of a stale descriptor, where a `Run` ends.
- `PipeSafety.dfy`, `ChildOutput.dfy`, `TraceSafety.dfy`: the exec-report pipe under every interleaving of
  the daemon and its children, the children's standard streams, and the messages each child gives rise
  to.
- `Routing.dfy`, `LostReports.dfy`: to whom each message goes and whether anybody is there to hear it,
  with runs in which somebody is told nothing, or less than the truth, and runs in which all is well.
- `TableRefinement.dfy`, `Boundaries.dfy`: what the table implements when the scan covers all of it,
  exactly where the bound that is really passed departs from that, and concrete runs at the edge.

The Rust daemon and its client: `RustProtocol.dfy` (the response to a request, as messages),
`RustTasks.dfy` (the handler as written, and all connection tasks interleaved), `ProtoClient.dfy`
(the client's loop, composed with the daemon).

The wire: `Framing.dfy`, `InotifyWalk.dfy` and `NetlinkWalk.dfy` are the three loops over
variable-length records; `CommandCodec.dfy` and `CommandReader.dfy` are the two writers and the reader
of a command, at the level of tables, vectors and unions. `Machine.dfy` has the 32-bit integers and the
C strings they share.

## Where the code does less than one might expect

- `handle_SIGCHLD` scans as many records as there are live children, not the whole table
  (`c/daemon-features/events.c:193`), so a record can outlive its child. `Boundaries.RecordsLeak` gives
  the run; `TableRefinement.OwnRecordReleasedIff` says exactly when a child's own record is released.
- `manager_add_process` returns -1 on failure, but its caller only tests for zero
  (`c/daemon-features/events.c:98`), so the counter counts children, not records. It is the number of
  children launched and not yet reaped in every run (`RunSafety.CounterIsLive`).
- The removal does not test whether the record it stops at is occupied
  (`c/daemon-features/process_manager.c:46-53`). With any number of children, and even after stale
  descriptors have been closed, no stack is freed twice and no live child loses its record or its stack
  (`StrayRuns.NeverFreesTwice`, `StrayRuns.LiveChildKeptOn`). Until the first stale close, what is closed
  is closed by its owner (`RunSafety.ClosedByOwner`), and a reap goes wrong exactly when its scan leaves
  the table, or stops at a released record with a descriptor of its own (`RunSafety.FaultsExactly`).
  With at most 256 children waiting to be reaped neither can happen (`RunSafety.NoFault`); with 257
  both can (`Boundaries.LimitIsTight`, `Boundaries.UntrackedReapFaults`).
- A SIGCHLD that comes while another is pending is dropped, and its child is never waited for: its
  termination is never reported (`TraceSafety.MergedNeverTold`), and an idle daemon has told a dead
  child's story in full exactly when its signal was not dropped (`TraceSafety.IdleMeansTold`).
- A child killed before its execve, or after a failed one and before it wrote the error number, is
  reported as executed, because its pipe closes with nothing written. `TraceSafety.ReportCorrect` says
  exactly when a reported success means that the program ran; in the runs
  `LostReports.SuccessWithoutRunning` and `LostReports.FailureIsSuccess` it did not.
- A launch is acknowledged on the requesting connection, but later reports go to the connection
  accepted last (`c/daemon-core.c:219`), by its descriptor number, whether or not that client is still
  there. `Routing.MessageRouted` says where every message goes and exactly when it arrives. Runs in which
  it does not, or arrives elsewhere: `LostReports.OtherClientIsTold`, `LostReports.NobodyIsTold`,
  `LostReports.ErrorFileIsTold`.
- The size of a modified file is cut to 32 bits, and that of a missing one is -1, which becomes the
  largest unsigned number. `InotifyWalk.SizeReachedExactly` says when the limit is reported as reached:
  for a missing file with every limit but 2^32-1, for a file of 4 GiB with none.
- The Rust daemon ignores how many bytes `write` took (`rust/src/bin/main.rs:157`), and cuts
  lengths to 32 bits. A connection's output is intact exactly when no write on it was cut short
  (`RustTasks.OutputInOrder`), and can then be taken apart again exactly when no length was cut either
  (`RustTasks.ReceiverSees`).
- The client stops at the first terminating message, so it reads a whole response only in the cases
  that `ProtoClient.ClientStops` lists.
- A C string cannot hold a NUL, so a command survives the trip unchanged, its unknown watches aside,
  exactly when no string in it has one (`CommandReader.LosslessIffNulFree`).

## Model

| member | source | states |
|---|---|---|
| ProcessManager.Scan | c/daemon-features/process_manager.c:44-54 | the search stops at the first written record bearing the pid, ends without a match, or gets to a record it may not read; each answer with its reason |
| ProcessManager.ScanFindsLowest | c/daemon-features/process_manager.c:45-46 | record k is found if and only if it is below the bound and the lowest bearing the pid, everything before it written |
| ProcessManager.Placement | c/daemon-features/process_manager.c:60-75 | first fit: the lowest record without a stack, and none only when the counter is at the limit or every record is occupied |
| ProcessManager.AddTakesFirstFree | c/daemon-features/process_manager.c:60-68 | below the limit the first record without a stack, and no other, is filled with the pid, the descriptor and the stack |
| ProcessManager.AddWithoutRoom | c/daemon-features/process_manager.c:70-74 | at the limit, or with every record occupied, nothing is written |
| ProcessManager.ReleaseDoes | c/daemon-features/process_manager.c:46-53 | releasing clears one stack pointer and keeps pid and descriptor; the stack is freed if there was one, the descriptor closed unless it is standard output |
| ProcessManager.ShutdownEffect | c/daemon-features/process_manager.c:6-15 | shutting down gives up stacks and descriptors of occupied records only, as many of one as of the other |
| ProcessManager.Manager.constructor | c/daemon-features/process_manager.c:17-33 | a new table holds only records that have never been written |
| ProcessManager.Manager.Search | c/daemon-features/process_manager.c:35-42 | returns the lowest record bearing the pid, or -1 when none below the bound does |
| ProcessManager.Manager.Remove | c/daemon-features/process_manager.c:44-58 | on a match clears only the stack pointer, frees the stack and closes the descriptor unless it is standard output; otherwise nothing changes and -1 is returned |
| ProcessManager.Manager.Add | c/daemon-features/process_manager.c:60-75 | writes the first free record and returns 1, or changes nothing and returns -1 |
| ProcessManager.Manager.FreeManager | c/daemon-features/process_manager.c:6-15 | gives up the stack and descriptor of every occupied record below the bound, in order |
| DaemonState.LowestFree | c/daemon-features/clone.c:57-60 | the kernel's rule for new descriptors: unused, with every lower one in use |
| DaemonState.ChildActionFrame | c/daemon-features/clone.c:15-37 | nothing a child does changes the daemon's variables, table, descriptors, registrations or messages, nor what launch fixed about the child |
| DaemonState.ExecutesExtendsRun | c/daemon-core.c:116-287 | a run followed by the steps of one more handler is again a run, ending where the handler ends |
| StepEffects.LaunchDoes | c/daemon-features/events.c:80-110 | a launch adds one child with the pid, path and stack of the request, fills the first free record if there is one below the limit, acknowledges on the requesting connection, and registers the read end under that pid and path |
| StepEffects.LaunchOpens | c/daemon-features/clone.c:57-80 | of the new descriptors the daemon keeps the error file, if it could be opened, and the read end; the child has those of the daemon and the write end |
| StepEffects.LaunchFailsDoes | c/daemon-features/events.c:95-96 | a failed launch sends the error number on the requesting connection and leaves open the error file and the pipe; table, stacks and children stay |
| StepEffects.AcceptDoes | c/daemon-core.c:203-223 | an accept takes the lowest free descriptor, registers it, greets it, and makes it the one that reports go to |
| StepEffects.HangupDoes | c/daemon-core.c:160-167 | a hang-up closes and unregisters one connection and changes nothing else |
| StepEffects.WatchDoes | c/daemon-features/events.c:126-143 | a path watch is confirmed on its connection; with a positive limit, if an instance can be had, a descriptor not in use becomes one, registered with the limit; nothing else changes |
| StepEffects.PrepareDoes | c/daemon-features/clone.c:19-26 | before execve the child loses the descriptor below its write end and its standard output becomes its error file; all else stays |
| StepEffects.ExecDoes | c/daemon-features/clone.c:28 | a successful execve closes the pipe write ends and no other descriptor |
| StepEffects.WriteDoes | c/daemon-features/clone.c:31-32 | the child's own pipe, and no other, gets the error number of its execve |
| StepEffects.DieDoes | c/daemon-features/events.c:199-207 | a death closes the child's descriptors and raises its signal unless another is pending |
| StepEffects.ReapTells | c/daemon-features/events.c:185-196 | a reap waits for the child, counts down by one and reports its exit code, or the signal that killed it, with its pid |
| StepEffects.ReapGivesBack | c/daemon-features/process_manager.c:44-54 | the lowest record bearing the pid loses its stack, which is freed, and its descriptor is closed unless it is standard output; every other record, stack and descriptor stays |
| StepEffects.ReapKeepsAll | c/daemon-features/process_manager.c:55-56 | when no record below the counter bears the pid, nothing is given back |
| StepEffects.ReportCloses | c/daemon-core.c:242-246 | an exec report sends one message, closes and unregisters the read end, and changes nothing else |
| TableSafety.CountedAreWritten | c/daemon-features/process_manager.c:45-46 | every record below the counter has been written, so the scan never reads a pid that was never stored |
| TableSafety.ScanDefinedExactly | c/daemon-features/events.c:193-194 | however many children there are, the removal scan is defined if and only if the counter is within the table or some record bears the pid |
| TableSafety.StepKeepsTable | c/daemon-features/events.c:98-100 | every step keeps: the counter is the number of live children, written records form a prefix, and that prefix covers the counter |
| TableSafety.StepKeepsRecords | c/daemon-features/process_manager.c:60-75 | every step, however many children there are, keeps: live pids are unique, and the record a live child was given still holds its stack, pid and descriptor |
| TableSafety.FirstMatchOccupied | c/daemon-features/process_manager.c:46-53 | whatever record the scan for a live child's pid stops at is occupied |
| TableSafety.StepKeepsHistory | c/daemon-features/process_manager.c:60-75 | every step, launches being below the limit, keeps the history: live pids are unique, and below a tracked child's record, or anywhere for an untracked one, records bearing its pid are occupied |
| TableSafety.StepKeepsStacks | c/daemon-features/process_manager.c:46-48 | every step keeps: occupied records and live children hold distinct allocated stacks, and only a child's own record can hold its stack |
| TableSafety.StepKeepsDescriptors | c/daemon-features/events.c:90-104 | every step keeps: an occupied record's descriptor is standard output or an open error file that no other occupied record holds, and registrations are on open descriptors of their kind |
| TableSafety.RegisteredNotRecorded | c/daemon-features/events.c:90-104 | a registered descriptor is never one that an occupied record would close |
| RunSafety.RunIntact | c/daemon-core.c:116-287 | every state of every run, however many children there are, satisfies the invariants of the table, the records, the stacks and the descriptors |
| RunSafety.RunSafe | c/daemon-core.c:116-287 | every state of a run within the limit also satisfies the history invariant |
| RunSafety.CounterIsLive | c/daemon-features/events.c:98-100 | in every run, within the limit or not, the counter is the number of children launched and not yet reaped |
| RunSafety.FaultsExactly | c/daemon-features/process_manager.c:44-54 | for every run and every next step: it leaves the table if and only if it is a reap with the counter above 256 and no record bearing the pid; it closes a descriptor given up before, the first time in the run, if and only if it is a reap whose first match is unoccupied with a descriptor other than standard output; it never frees a stack twice |
| RunSafety.NoFault | c/daemon-features/events.c:182-197 | in a run that never had more than 256 children waiting to be reaped neither condition arises: no next step faults |
| RunSafety.LiveChildKept | c/daemon-features/process_manager.c:60-75 | in every run, no step frees or overwrites the record or the stack of a child still to be reaped; the runs that go on after a stale close are those of `StrayRuns` |
| RunSafety.AtMostOneOwner | c/daemon-features/process_manager.c:49-51 | a descriptor other than standard output is held by at most one occupied record or registration, and a held one is open |
| RunSafety.ClosedByOwner | c/daemon-core.c:244-246 | in every run, every descriptor a step closes had exactly one owner, which gives it up in that step |
| RunSafety.ShutdownFreesOnce | c/daemon-core.c:189-192 | at any point of any run, shutting down stays inside the table if and only if at most 256 children wait to be reaped; it then frees exactly the stacks of the records below the counter, which are allocated, each once; it closes exactly the descriptors that the occupied records below the counter hold, and of these all but standard output are open error files, each closed once |
| StrayRuns.RunIsLong | c/daemon-features/process_manager.c:49-51 | the runs without a stale close are among those that go on through any number of them |
| StrayRuns.LongRunMemory | c/daemon-features/process_manager.c:44-75 | in every state of every such long run the counter is the number of live children and the invariants of the table, the records and the stacks hold |
| StrayRuns.NeverFreesTwice | c/daemon-features/process_manager.c:46-48 | in every long run no next step frees a stack twice, and one leaves the table if and only if it is a reap with the counter above 256 and no record bearing the pid |
| StrayRuns.LiveChildKeptOn | c/daemon-features/process_manager.c:60-75 | in every long run no step frees or overwrites the record or the stack of a child still to be reaped |
| PipeSafety.LaunchDescriptors | c/daemon-features/clone.c:19-32 | for every descriptor table: error file below read end below write end, so closing the descriptor under the write end spares the error file and the write end, and closes the read end if and only if nothing between the two was in use |
| PipeSafety.StepKeepsSound | c/daemon-features/clone.c:57-80 | every step keeps the pipe invariant: one write end per unfinished child, held by that child alone, and registrations that match their child and its unread error number |
| PipeSafety.ReadyMeansSettled | c/daemon-core.c:224-237 | epoll reports an exec registration only after its child has written, executed its program or died |
| PipeSafety.SettledIsReady | c/daemon-core.c:224-277 | conversely, a child that can write no more and has not been reported makes its registration ready |
| PipeSafety.OnlyChildHoldsEnd | c/daemon-features/clone.c:57-80 | at every point of every run, for all children at once, nobody but the child holds the write end of its pipe, and the child holds it exactly until it executes its program or dies |
| ChildOutput.OutputIsErrorFile | c/daemon-features/clone.c:24-26 | in every run a prepared or running child has the error file of its launch as standard output, or the daemon's output if there was none, and the daemon's input and error streams |
| TraceSafety.RunTraces | c/daemon-core.c:139-277 | at every point of every run, what has been sent about a child is fixed by whether it was reported and whether it was reaped |
| TraceSafety.MessagesInOrder | c/daemon-core.c:139-277 | the messages about a child are a prefix of launched, exec, terminated or of launched, terminated, exec, with its own pid, path and status |
| TraceSafety.RunPending | c/daemon-features/events.c:199-213 | the pending signal is the named zombie's own; every zombie whose signal was not dropped is the one it names, and one whose signal was dropped stays a zombie |
| TraceSafety.MergedNeverTold | c/daemon-features/events.c:199-213 | a child whose signal was dropped is never waited for, and no message ever tells of its end |
| TraceSafety.IdleMeansTold | c/daemon-core.c:116-287 | when no signal waits and no pipe is ready, every finished or executed child has been reported, and a dead one has been waited for and has all three messages if and only if its signal was not dropped |
| TraceSafety.DeadIff | c/daemon-features/events.c:185-191 | a child is dead if and only if the run has ended it, and then with the status of that step |
| TraceSafety.TerminationCorrect | c/daemon-features/events.c:187-195 | every termination sent about a child carries its pid and the exit code or the signal with which the run ended it |
| TraceSafety.TerminationTold | c/daemon-features/events.c:187-195 | once a child has been waited for, exactly one termination about it has been sent, with the exit code or the signal of its end |
| TraceSafety.NothingStuck | c/daemon-core.c:116-287 | at every point of every run a client may come, every child may go on or die, a pending signal can be read, and the report of a settled child can be made |
| TraceSafety.WroteIffWriteStep | c/daemon-features/clone.c:28-32 | a child has written if and only if its write is in the run |
| TraceSafety.WroteAfterFailure | c/daemon-features/clone.c:28-32 | what a child wrote is the error number of its own failed execve, earlier in the run |
| TraceSafety.RanIff | c/daemon-features/clone.c:28 | a child's program was executed if and only if the child is running it or died running it |
| TraceSafety.WroteNotRan | c/daemon-features/clone.c:28-32 | a child that wrote an error number, or has not got past execve, never executed its program |
| TraceSafety.ReportCorrect | c/daemon-core.c:224-277 | every exec report names the pid and path of the child whose pipe was read; it says failure if and only if that child wrote after its execve failed, and the program then never ran; it says success only when nothing was written and no write end is left, and the program then ran if and only if the child is running it or died running it |
| Routing.ReachesIffThere | c/daemon-core.c:203-221 | at every point of every run `communication_socket` names an open connection if and only if the client accepted last has not hung up since |
| Routing.MessageRouted | c/daemon-core.c:149-222 | with any number of clients a step sends at most one message: an answer on the connection its request came from, where it arrives, and a report to the client accepted last, where it arrives if and only if that client has not hung up since |
| Routing.SingleClient | c/daemon-core.c:219-221 | with a single client every message of every run is sent on the descriptor of that client's connection, which is open if and only if nobody has hung up |
| LostReports.OtherClientIsTold | c/daemon-core.c:219 | a run with two clients in which the first launches a child and the second is told of its end |
| LostReports.NobodyIsTold | c/daemon-core.c:149 | a run with a single client that launches a child and hangs up; the report goes to a closed descriptor |
| LostReports.ErrorFileIsTold | c/daemon-core.c:243 | a run in which the number of the client that hung up is given to an error file, which then gets the report |
| LostReports.SuccessWithoutRunning | c/daemon-core.c:263-266 | a run in which a child is killed before its execve and reported as executed |
| LostReports.FailureIsSuccess | c/daemon-features/clone.c:28-32 | a run in which a child is killed between its failed execve and the write of its error number, and reported as executed |
| LostReports.ExecutedIsTold | c/daemon-core.c:224-248 | a run in which a program is executed and reported so |
| LostReports.FailureIsTold | c/daemon-features/clone.c:28-33 | a run in which an execve fails, its error number is written and the failure reported |
| LostReports.FailedLaunchIsTold | c/daemon-features/events.c:95-96 | a run in which a launch fails, its error number is answered, and the watch of the command is still set |
| LostReports.ChangeIsTold | c/daemon-features/events.c:64-76 | a run in which a change of a watched path is passed on |
| EventLoop.Daemon.constructor | c/daemon-core.c:50-114 | what is set up before the loop is the initial state of the machine |
| EventLoop.Daemon.LaunchProcess | c/daemon-features/clone.c:41-84 | on success a stack, a pipe whose write end only the child keeps, and a child with a copy of the table; on failure nothing allocated remains but the pipe stays open |
| EventLoop.Daemon.ProcessCommandRequest | c/daemon-features/events.c:80-110 | the new state is exactly that of a launch step or a failed one, for every outcome of open, malloc and clone |
| EventLoop.Daemon.TrackChild | c/daemon-features/events.c:97-105 | the counter grows whether or not a record was found, the launch is sent to the requesting connection, and the pipe's read end is registered |
| Events.WatchLabelsDo | c/daemon-features/events.c:123-143 | told from the states alone, the watches of a command are confirmed one by one, in order, on its connection; each with a limit, if it can have one, has an inotify instance of its own on a descriptor not in use before, registered with its limit; nothing else is opened, closed or registered |
| Events.NotifyLabelsDo | c/daemon-features/events.c:70-76 | told from the states alone, an inotify read sends one message with each path, in order, and changes nothing else |
| Events.CommandDoes | c/daemon-core.c:170-177 | a command is answered on its connection by the pid of one new child or by the error number, then come the confirmations of its watches, and nothing else is sent |
| Events.EventDoes | c/daemon-core.c:139-277 | told from the states alone: a new client, a closed one, a signal, and a report, which says failure if and only if the pipe held something |
| Events.KillDoes | c/daemon-core.c:179-199 | a kill ends the child that bears the pid with SIGKILL and touches no other; every other kill and unknown message changes nothing |
| Events.ShutdownIsKillZero | c/daemon-core.c:189 | the daemon ends on a kill of pid 0 and on nothing else |
| EventLoop.Daemon.ProcessSurveillanceRequests | c/daemon-features/events.c:113-160 | the path watches are taken as one step each, in order, whether or not an inotify instance can be had; each is confirmed, and those that can have an instance of their own, registered with their limit |
| EventLoop.Daemon.ReleaseRecord | c/daemon-features/process_manager.c:44-58 | releasing a record changes the table, the heap and the open descriptors as the record says, and nothing else |
| EventLoop.Daemon.WaitFor | c/daemon-features/events.c:185-191 | the zombie is reaped, and the number taken for it is its exit code or the signal that killed it |
| EventLoop.Daemon.HandleSigchld | c/daemon-features/events.c:182-197 | the new state is exactly that of the reap step |
| EventLoop.Daemon.HandleReport | c/daemon-core.c:224-277 | the input branch and the hang-up branch both lead to the state of the report step |
| EventLoop.Daemon.AcceptConnection | c/daemon-core.c:203-223 | the new connection is registered, becomes the one reports go to, and is greeted |
| EventLoop.Daemon.HangUp | c/daemon-core.c:160-167 | an empty frame drops the connection's registration and closes it |
| EventLoop.Daemon.HandleCommand | c/daemon-core.c:170-177 | a command is one launch followed by its watches, each confirmed on the requesting connection and given its instance |
| EventLoop.Daemon.HandleKill | c/daemon-core.c:179-194 | a positive pid ends the live child that bears it, if any; zero changes nothing and gives back what the records hold; a negative one does nothing |
| EventLoop.Daemon.HandleMessage | c/daemon-core.c:154-202 | every kind of message takes exactly its steps |
| EventLoop.Daemon.HandleInotify | c/daemon-core.c:131-137 | one message with each path, in order, to the client accepted last, and nothing else |
| EventLoop.Daemon.Dispatch | c/daemon-core.c:125-285 | one turn of the loop, from any state of any run, takes exactly the steps of its event if that event does no harm |
| EventLoop.HappeningKeepsLimit | c/daemon-core.c:116-287 | if the limit holds before and after an event it holds in between |
| EventLoop.Daemon.Turn | c/daemon-core.c:116-287 | in a run within the limit no event does harm, and the run goes on with its steps |
| EventLoop.Daemon.Serve | c/daemon-core.c:116-287 | from the start, over every script of due events and child actions with at most 256 children waiting to be reaped, the daemon's states are those of a run within the limit; it ends early only on a shutdown, which frees only allocated stacks and closes only open error files and standard output, each stack and file once |
| PlainDay.DayIsFeasible | c/daemon-core.c:116-287 | an instance: a client connects, launches a child and asks for a watch, the child dies and is reaped |
| TableRefinement.AddRefines | c/daemon-features/process_manager.c:60-75 | adding keeps the table a representation of the map from live pids to stack and descriptor |
| TableRefinement.RemoveRefines | c/daemon-features/process_manager.c:44-54 | with the scan bound 256, removing finds the pid's own record and keeps the representation |
| TableRefinement.TableImplementsMap | c/daemon-features/process_manager.c:44-75 | with that bound, over all sequences of operations the table holds exactly the map and gives back exactly what the map would |
| TableRefinement.TrackerIsLastAdd | c/daemon-features/process_manager.c:44-75 | after any operations a pid is in that map if and only if the last operation about it added it, and then with what it added |
| TableRefinement.TrackerGivesBack | c/daemon-features/process_manager.c:46-51 | an addition gives nothing back; a removal gives back the stack and the descriptor of the last addition of its pid |
| TableRefinement.OwnRecordReleasedIff | c/daemon-features/events.c:193 | with the bound really passed, in every run, the scan finds the child's own record k if and only if k is below the counter and no lower record bears the pid; otherwise it finds nothing or a lower record that holds no live child's stack, within the limit one leaked earlier |
| Boundaries.RecordsLeak | c/daemon-features/events.c:193-194 | a run of three launches and two reaps within the limit after which a reaped child's record is still occupied and the counter is below the number of occupied records |
| Boundaries.LimitIsTight | c/daemon-features/process_manager.c:44-53 | a run with 257 children waiting to be reaped whose next step closes a descriptor a second time |
| Boundaries.UntrackedReapFaults | c/daemon-features/process_manager.c:45-46 | a run with 257 children waiting to be reaped whose next reap takes the scan out of the table |
| Framing.Le32Inverse | c/daemon-features/Network.c:112 | four little-endian bytes are the number they stand for, and back |
| Framing.LittleEndian | rust/src/bin/main.rs:154 | the first byte of a length is the lowest |
| Framing.FrameBytes | c/daemon-features/Network.c:112-113 | a frame byte by byte: the four bytes of the length, lowest first, then the message |
| Framing.DecodeFrames | rust/src/bin/main.rs:182-197 | for lengths below 2^32, decoding frames followed by an incomplete tail gives exactly the messages and leaves the tail |
| Framing.FramesDecodeIff | rust/src/bin/main.rs:152-155 | the frames as they are sent decode to their messages if and only if no length was cut to 32 bits |
| Framing.FramesInjective | rust/src/bin/main.rs:152-158 | a byte stream determines the messages that were framed |
| Framing.DecodeMore | rust/src/bin/main.rs:182-197 | decoding what arrives later after what arrived first is decoding all of it |
| Framing.SendMessage | c/daemon-features/Network.c:104-116 | the buffer that is sent is the frame of the message |
| Framing.FrameForSocket | rust/src/bin/main.rs:152-157 | the buffer written is the frame of the message, its length cut to 32 bits; below 2^31 it is the one that the C sender makes |
| Framing.ReadSocketMessage | c/daemon-features/Network.c:75-102 | a message is returned if and only if both reads deliver all they ask for, and it is then the first frame of the stream |
| Framing.FrameReader.Absorb | rust/src/bin/main.rs:182-197 | a read takes no more than it asks for and loses no byte |
| Framing.FrameReader.Complete | rust/src/bin/main.rs:189-199 | a message is handed over when its last byte is there, and is what decoding yields |
| Framing.FrameReader.Feed | rust/src/bin/main.rs:181-200 | the messages that a chunk completes are those that decoding all pending bytes yields, and the rest stays pending |
| Framing.ChunksDoNotMatter | rust/src/bin/main.rs:182-197 | feeding chunk after chunk is decoding their concatenation |
| Framing.AnyChunking | rust/src/bin/main.rs:182-197 | for every list of messages, every incomplete tail and every way of cutting the stream, exactly the list is delivered and the tail kept |
| Framing.ReadAll | rust/src/bin/main.rs:181-200 | reading a stream in chunks delivers what decoding the whole stream yields |
| InotifyWalk.SizeReachedExactly | c/daemon-features/events.c:56-61 | for every limit a client can ask for: it is reported as reached if and only if the file was modified and its size modulo 2^32 is larger or, when there is no such file, the limit is below 2^32-1 |
| InotifyWalk.SizeReachedIff | c/daemon-features/events.c:56-61 | for a file below 4 GiB and every limit, reached means modified and larger |
| InotifyWalk.MissingFileReachesLimit | c/daemon-features/events.c:23-31 | for a missing file a modification reports every limit but 2^32-1 as reached |
| InotifyWalk.FourGiBReachesNothing | c/daemon-features/events.c:23-31 | a modified file of exactly 4 GiB is never reported as having reached its limit |
| InotifyWalk.TerminatedPath | c/daemon-features/events.c:50 | a name with its own NUL is reported as it is, whatever follows it in the buffer |
| InotifyWalk.Info.ProcessEvent | c/daemon-features/events.c:48-62 | by the bits of the mask, modification over deletion over creation over access, or the event kept from an earlier record; path, size and limit are always the record's |
| InotifyWalk.HandleInotifyEvent | c/daemon-features/events.c:64-78 | on every concatenation of records, stat answering anew for each, the loop ends exactly at their end and sends one message for each, in order; its event is told by the mask bits of the latest record that had one of the four, and is unset when there was none; its size is the file's after a modification and the limit otherwise |
| NetlinkWalk.Align4 | c/daemon-features/Detect_socket.c:92-94 | the step of the walk is the message length rounded up to a multiple of four |
| NetlinkWalk.WalkStops | c/daemon-features/Detect_socket.c:92-94 | on any buffer the walk stops if and only if fewer than 16 bytes are left, or the length found there is below 16 or beyond what is left |
| NetlinkWalk.WalkGoesOn | c/daemon-features/Detect_socket.c:92-94 | otherwise it sees the message there and goes on after its length, rounded up to four |
| NetlinkWalk.OutcomeAppend | c/daemon-features/Detect_socket.c:91-107 | going on with more messages from what the first ones left is going through all of them |
| NetlinkWalk.DoneStops | c/daemon-features/Detect_socket.c:96-97 | nothing after the end of the dump changes the result |
| NetlinkWalk.Detector.ProcessInetDiag | c/daemon-features/Detect_socket.c:36-75 | the state becomes created for the state byte 1, listening for 10 and unknown for any other, and found is set if the message has the watched source port |
| NetlinkWalk.LaidBytes | c/daemon-features/Detect_socket.c:92-103 | a message byte by byte: length and type little-endian, then the payload, whose port is big-endian |
| NetlinkWalk.Detector.WalkDatagram | c/daemon-features/Detect_socket.c:92-106 | on every buffer the inner loop ends, and leaves what the messages before the end of the dump say |
| NetlinkWalk.Detector.RecvTcpDiag | c/daemon-features/Detect_socket.c:77-109 | over all datagrams it returns 0 if and only if the end of the dump was met, else -1, and leaves what the messages before that say |
| NetlinkWalk.LaidMeansHolds | c/daemon-features/Detect_socket.c:92-94 | where messages have been laid out one after the other, each is found at its place with its length, type, state and source port |
| NetlinkWalk.WalkSeesAll | c/daemon-features/Detect_socket.c:92-94 | on every such buffer the walk sees exactly those messages, in order |
| NetlinkWalk.DatagramOutcome | c/daemon-features/Detect_socket.c:36-107 | from not found, a datagram of complete messages sets found if and only if one before the first end of dump has the watched port; the state is created, listening or unknown by the state byte 1, 10 or other of the last of them |
| CommandCodec.Builder.CreateStrings | c/daemon-features/serialize.cpp:24-36 | one string for each entry, in order, cut at its NUL |
| CommandCodec.Builder.CreateSurveillances | c/daemon-features/serialize.cpp:42-82 | one table for each known watch (`CommandReader.KnownKeeps` says which those are), in order, with the tag and the fields of the watch |
| CommandCodec.Builder.CreateRunCommand | c/daemon-features/serialize.cpp:86-95 | the table says the command: every part in its slot, every default left out |
| CommandCodec.Builder.SerializeCommand | c/daemon-features/serialize.cpp:19-107 | the finished buffer says the command, its strings cut at their first NUL and its unknown watches dropped |
| CommandCodec.Builder.SendKillToDemon | c/daemon-features/serialize.cpp:133-144 | the finished buffer says which pid to kill, zero being left out |
| CommandCodec.Builder.PrependReversed | tests_python/serialization.py:154-157 | a vector built by prepending its elements from last to first comes out in order |
| CommandCodec.Builder.PythonSurveillances | tests_python/serialization.py:120-151 | one table for each watch of a known kind, in order |
| CommandCodec.Builder.SendCommandToDemon | tests_python/serialization.py:111-187 | the finished buffer says the command, its unknown watches dropped and its strings kept whole |
| CommandReader.ReceiveMessageFromUser | c/daemon-features/serialize.cpp:262-280 | a message is taken for a command if and only if `receive_command` does not refuse it, so the daemon never goes on with a null command |
| CommandReader.CopyStrings | c/daemon-features/serialize.cpp:192-200 | the strings of the vector, in order, each up to its NUL |
| CommandReader.CopyWatches | c/daemon-features/serialize.cpp:203-232 | every watch in order; none at all if and only if one lacks its event or its path; an unknown kind leaves its entry unset |
| CommandReader.ReceiveCommand | c/daemon-features/serialize.cpp:159-238 | refuses what is empty, malformed or no command, dereferences null where a path, an argument vector or a watch's event is missing, and otherwise returns the command the buffer says |
| CommandReader.EncodedReads | c/daemon-features/serialize.cpp:159-238 | every buffer that says a command passes the verifier and reads back as that command with its strings cut, the elided defaults restored |
| CommandReader.EncodedKillReads | c/daemon-features/serialize.cpp:241-258 | every buffer that says a kill reads back as its pid, and is refused as a command |
| CommandReader.ReadsExactly | c/daemon-features/serialize.cpp:159-238 | a buffer is refused if and only if it is no verified run command, and crashes the reader if and only if the command, its path, arguments or environment are missing, or a watch of a known kind lacks its event or its path |
| CommandReader.KnownKeeps | c/daemon-features/serialize.cpp:50-73 | each watch that is not unknown is kept as often as it occurs, and no other |
| CommandReader.KnownConcat | c/daemon-features/serialize.cpp:46-82 | the known watches of two lists one after the other are those of the one and then those of the other |
| CommandReader.CutDoes | c/daemon-features/serialize.cpp:24-38 | every string is cut at its first NUL, and no other field, entry or order changes |
| CommandReader.UnchangedIff | c/daemon-features/serialize.cpp:19-107 | a command comes back as it was if and only if it holds no NUL and no unknown watch |
| CommandReader.LosslessIffNulFree | c/daemon-features/serialize.cpp:19-107 | a command comes back with nothing but its unknown watches missing if and only if none of its strings holds a NUL |
| CommandReader.RoundTrip | c/daemon-features/serialize.cpp:19-238 | reading what the C++ writer wrote gives the known watches in order and every string cut at its NUL, for every command; it gives the command itself if and only if it holds no NUL and no unknown watch |
| CommandReader.PythonRoundTrip | tests_python/serialization.py:111-187 | reading what the Python writer wrote gives the same command, and the command itself under the same condition |
| CommandReader.KillRoundTrip | c/daemon-features/serialize.cpp:133-258 | a kill message is told apart from a command and gives its pid back, zero included |
| RustProtocol.WatchReports | rust/src/bin/main.rs:135-139 | two messages for each watch, in order: its announcement, then its conclusion |
| RustProtocol.Response | rust/src/bin/main.rs:88-150 | a command with n watches is answered by 3+2n messages in every spawn and watch outcome, first the launch and last the termination; any other request by one |
| RustProtocol.CommandAnswered | rust/src/bin/main.rs:102-145 | a command is answered first by the child's pid, or the daemon's own if there is no child; then by whether the program was executed, which is so if and only if it was spawned, or by why there is no child; last by the child's pid and exit code, or pid 0 and the error |
| RustProtocol.WatchAnswered | rust/src/bin/main.rs:20-86 | the two messages of each watch: its path or port with the strongest trigger of the mask, closing over modification over deletion over creation over access; then how it ended, a listening port being told from an established one |
| RustProtocol.OthersAnswered | rust/src/bin/main.rs:93-101 | a kill is answered by the pid, or by the pid and the error number; any other request by ENODATA |
| RustProtocol.SplitResponses | rust/src/bin/main.rs:181-200 | from the requests alone, a connection's output splits back into the response to each |
| RustProtocol.OutputDeterminesResponses | rust/src/bin/main.rs:181-200 | two ways of answering that give the same output gave the same response to each request |
| RustTasks.Socket.HandleSurveillanceEvent | rust/src/bin/main.rs:20-86 | a watch writes its announcement and its conclusion; the trigger is the last test of the mask that succeeds |
| RustTasks.Socket.HandleRunCommand | rust/src/bin/main.rs:102-145 | a command writes its spawn report, its watch reports and its final report, in every outcome |
| RustTasks.Socket.HandleMessage | rust/src/bin/main.rs:88-150 | handling a request writes exactly its response |
| RustTasks.MovedSays | rust/src/bin/main.rs:88-150 | every resumption of a task says exactly the message that it writes |
| RustTasks.ConnAlways | rust/src/bin/main.rs:174-202 | over every history of accepts and resumptions, a connection's bytes are those of what its task has said, or fall short of them once a write was cut short |
| RustTasks.OutputInOrder | rust/src/bin/main.rs:174-202 | for every interleaving, the bytes on a connection are the greeting and the responses to its requests, in order, if and only if no write on it was cut short |
| RustTasks.ReceiverSees | rust/src/bin/main.rs:152-158 | a receiver of such a connection decodes exactly what was said if and only if every message said is shorter than 2^32 bytes |
| RustTasks.TasksIndependent | rust/src/bin/main.rs:180-201 | whatever the other tasks do, a connection is in the state its own history alone leads to |
| RustTasks.NeverStuck | rust/src/bin/main.rs:181-200 | no task is ever stuck: whatever it waits for may come, and what it does itself it can do |
| ProtoClient.Handled | rust/src/bin/proto_client.rs:193-196 | the client handles messages up to and including the first that ends it |
| ProtoClient.HandledExactly | rust/src/bin/proto_client.rs:60-79 | of the messages the daemon sends, creation errors and terminations end the client and no others do |
| ProtoClient.Receive | rust/src/bin/proto_client.rs:182-197 | the receive loop handles exactly those messages of the stream, and stops because of the last one or because the stream ran out |
| ProtoClient.StopsThere | rust/src/bin/proto_client.rs:25-118 | no message of a response before the stopping point ends the client, and the one there does |
| ProtoClient.ClientStops | rust/src/bin/proto_client.rs:182-197 | a client answered in full stops, after a computable part of the response; it is the whole response if and only if the spawn did not end in a creation error, no path was watched and every port watch succeeded |
| ProtoClient.ClientStopsAt | rust/src/bin/proto_client.rs:182-197 | the number of messages handled, greeting included: 3 after a creation error, 5+2k when watch k is the first that is a path or fails, else all |
| ProtoClient.ClientReadsWire | rust/src/bin/proto_client.rs:182-197 | from the bytes that the daemon wrote in any interleaving, a client that understands what was said on its connection (every message shorter than 2^32 bytes, and got back by the parser) handles exactly that part |
| ProtoClient.PlainCommandIsRead | rust/src/bin/proto_client.rs:182-197 | an instance: one command without watches is understood in full, and all four messages are handled |

## Left out

- EventLoop.Daemon.ProcessSurveillanceRequests: does not model socket watches, because the detector thread
  they start ends the whole daemon (`c/daemon-features/Detect_socket.c:198`); its message walk is modelled
  on its own. Timers and the flags shared by several detector threads are left out with it.
- EventLoop.Daemon.HandleReport: does not model a read that fails, after which the code sends a success
  flag that was never set; reading four bytes from an open pipe that is ready does not fail.
- EventLoop.Daemon.HandleInotify: takes the paths as given; the walk over the records and the contents
  of the messages are modelled in `InotifyWalk.dfy`.
- A C client that disconnects or sends a short frame: `read_socket_message` returns null and the
  caller does not test it. Incoming frames are taken to be complete.
- Hang-ups on C registrations other than the exec-report pipe: that branch closes a descriptor read
  from the wrong member of a union.
- Failures of pipe (the daemon exits), of accept, of epoll_ctl on a valid descriptor, of the inotify_init
  at start-up, and of the small allocations other than those of a launch; the launch failures that
  report an error and a failing inotify_init of a watch are modelled.
- The name of the error file: it is formatted from `args[0]`, which an empty argument vector does not
  have (`c/daemon-features/events.c:87`).
- Clone flags given by the user, such as CLONE_VM or CLONE_FILES: children have their own memory and
  their own descriptor table. Launched programs are taken not to use descriptors they inherit.
- EventLoop.Daemon.HandleKill: a kill takes effect at once, and only on children of the daemon. What
  follows shutdown is not modelled beyond what `free_manager` gives up.
- Status of dead children: the model allows any status at any death, so it does not say that a child
  whose execve failed exits with its error number.
- Several events from one epoll_wait are handled one at a time; an event stays due until its own
  handler has run, and no handler frees the data of another registration.
- Failures of send in the C daemon: a message counts as sent when it is given to `send_message`.
- NULL termination of `args` and `envp`, the stack size, and the argument handling of the Rust
  `exec_command`.
- Rust panics (an unknown kind of watch, a malformed message, a missing path), and the client's panic
  when the stream ends before a terminating message: `Receive` then reports that the stream ran out.
- The client's answer to an event kind that the daemon never sends back.
- The Rust monitoring helpers (inotify, netstat, signals): their results are outcomes that the
  environment chooses. How the wait for a child ends is chosen together with the spawn.
- Netlink error messages are processed like any other, as the code does; payloads shorter than their
  type read as zeros past their end.
- The byte layout of FlatBuffers, and the ranges of its scalars: the model works with slots, vectors
  and unions over unbounded numbers.
- The codecs of the messages from the daemon to its client (`c/daemon-features/serialize.cpp:286` on),
  `serialize_wrapper.cpp`, which passes every call on, and `serialisation.rs`: each of these functions
  fills or reads the few slots of one table. The C and schema numberings of the socket state differ, so
  only C-to-C trips preserve it.
- The Python reader, benchmarks, plots and test drivers.
