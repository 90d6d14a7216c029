# A verified model of the messaging benchmark

The repository is a benchmark for a message broker. Producer nodes publish messages into one queue; consumer nodes
take them out, write one row of timestamps for each, acknowledge, and decide on their own when an experiment is over;
a monitor samples the broker's machine. These Dafny modules model that program and prove what it promises about
messages, measurements, files and counters. `dafny verify dfyconfig.toml` checks everything.

The modules follow the program.

- **The experiment as a step system.** `Protocol.dfy` models producers, generator/worker pairs with unbuffered
  hand-over, the broker's queue and channels, and consumers with their main goroutine, supervisor and workers. One
  action is one step of one goroutine, of the broker or of the operating system, and a run is any interleaving of
  enabled actions: numbers of nodes, workers and messages, schedules, clocks and message bodies are arbitrary.
  `Invariants.dfy` has the inductive invariant; `Conservation.dfy`, `Handoff.dfy`, `Overtaking.dfy`, `Shutdown.dfy`,
  `Drain.dfy`, `Quitting.dfy`, `Emptying.dfy`, `Interrupts.dfy`, `Automatic.dfy` and `LeftBehind.dfy` have what follows
  from it.
- **The experiment from outside.** `Histories.dfy` says of a sequence of actions alone what may happen next and what
  every goroutine holds; `PairHistories.dfy`, `WorkerHistories.dfy`, `QueueHistories.dfy` and `ConsumerHistories.dfy`
  prove that the states of the step system are what the sequence says, and `Traces.dfy` that its runs are exactly the
  sequences in which every action has its causes before it.
- **The goroutines as loops.** `BufWorkers.dfy`, `Supervision.dfy`, `EndCounting.dfy` and `ProducerLoops.dfy` hold
  the bodies of the goroutines as classes and loops over what their selects receive, each tied to the steps of the
  protocol.
- **Measurements on disk.** `Disk.dfy` is a file system as a map; `Buffer.dfy`, `BufferLog.dfy`, `Merge.dfy`,
  `Archive.dfy`, `ExperimentId.dfy` and `Sessions.dfy` follow a measurement from the buffer to the archive over any
  number of experiments; `Columns.dfy` reads a file by the names of its columns, `ResultNames.dfy` spells out the file
  names, and `EndToEnd.dfy` joins it all to the protocol.
- **The monitor.** `Network.dfy`, `NetworkMonitor.dfy`, `Cpu.dfy`, `RunNames.dfy`, `MonitorRuns.dfy`.
- **Workloads.** `Workload.dfy` splits, stores and loads; `WorkloadRoundTrip.dfy` says what comes back.
- `Prelude.dfy`, `Decimal.dfy` and `Text.dfy` hold sums and bags over sequences, decimal printing and parsing, and
  lines as a scanner delivers them.

Seven promises turned out not to hold of the code as it is. Each has a counterexample and the condition under which it
does hold:

| promised | where the code differs | counterexample | exact condition |
|---|---|---|---|
| "end" follows a worker's last publish (`producer/pkg/producer/worker.go:38-41`) | the wait group counts generators | `Handoff.EndOvertakes` | for a deployment: `Overtaking.EndMayOvertake` |
| the consumers have emptied the queue when they write (`README.md:77`) | the poll sees ready messages only, and a publish may come later | `LeftBehind.CanLose`, a complete run of any deployment with messages | for a deployment: `LeftBehind.MessageLeftBehind`; at the empty poll: `Emptying.EmptiedExactly`, and message by message `Emptying.PollDecides` |
| the experiment stops automatically (`README.md:75`) | an "end" passes by a consumer that has not bound its queue | `Automatic.EndsMissed` | `Automatic.StopsByItself` |
| returning waits for all workers (`consumer/pkg/consumer/consumer.go:140-142`) | the wait group is counted up inside the goroutines | `Shutdown.ReturnsTooEarly` | `Shutdown.ReturnWaits` |
| an interrupt ends the consumer (`consumer/pkg/consumer/consumer.go:128-135`) | one signal reaches one of two selects | `Interrupts.StuckIsReachable`, with `Shutdown.InterruptLost` | two of them: `Interrupts.TwoInterruptsExactly` |
| a stored workload loads as it was (`producer/pkg/workload/load.go:63-77`) | the scanner has removed the newline already | `WorkloadRoundTrip.RoundTrip`: every message is one byte short | `WorkloadRoundTrip.LoadsAsItWas`; up to that byte, `WorkloadRoundTrip.ComesBackExactly` |
| every start of the monitor writes new files (`monitoring/cmd/main.go:99-131`) | the regexp does not match a negative number, of a node or of a run beyond the largest int | `MonitorRuns.NodeMinusOne` | `MonitorRuns.SparedExactly` |

## Model

| member | source | states |
|---|---|---|
| Invariants.InitInv | producer/pkg/producer/producer.go:69-84 | Every deployment starts in a state that satisfies the whole invariant. |
| Invariants.StepInv | consumer/pkg/consumer/bufWorker.go:112-149 | Every enabled step of any goroutine, of the broker or of the operating system keeps it. |
| Invariants.RunInv | consumer/pkg/consumer/consumer.go:75-143 | It holds in every reachable state. |
| Invariants.SettleOldest | consumer/pkg/consumer/bufWorker.go:139-141 | On a channel handled in order, acknowledging the oldest delivery settles that one alone, with or without `multiple` (AMQP 0-9-1, section 1.8.3.13). |
| Invariants.EndedGenerators | producer/pkg/producer/producer.go:120-134 | Once a producer has sent "end", each of its generators has closed its channel and called wg.Done. |
| Invariants.StepFanOut | producer/pkg/producer/producer.go:156-189 | The fan-out of one "end" keeps the counting of distinct producers at every consumer. |
| Conservation.ExactlyOnePlace | consumer/pkg/consumer/bufWorker.go:112-149 | In every reachable state each message taken over by a producer worker is in exactly one place: held there, dropped at the producer's exit, ready, unacknowledged on one channel, or acknowledged by one worker. |
| Conservation.AckedOnce | consumer/pkg/consumer/bufWorker.go:64-64 | No message is acknowledged twice, by one worker or by two, however often closing a channel requeued it. |
| Conservation.RowsPerAck | consumer/pkg/consumer/bufWorker.go:131-141 | In every reachable state the rows written are the acknowledgements plus the workers between write and acknowledgement, in total and per worker. |
| Conservation.RowOfAck | producer/pkg/producer/worker.go:44-59 | Each acknowledged message has its row in the log of the worker that acknowledged it, at the same position, with the clock of its own publish as first column. |
| Conservation.AckModesAgree | consumer/pkg/consumer/bufWorker.go:139-141 | Both settings of AckMultiple allow the same runs and lead to the same states. |
| Traces.RunIsTrace | consumer/pkg/consumer/consumer.go:75-143 | The runs are exactly the sequences of actions in which every action has its causes before it, said of the sequence alone: what must have been handed over, sent, heard, delivered, acknowledged or closed before, and how often. Both directions, for every deployment. |
| PairHistories.PairHistory | producer/pkg/producer/worker.go:42-64 | In every run a generator has handed over, and its worker published, what the sequence says: bodies and clocks in order, held or dropped. |
| WorkerHistories.WorkerHistory | consumer/pkg/consumer/bufWorker.go:112-149 | In every run a worker has handled its deliveries in the order of arrival: acknowledged, being handled and waiting are consecutive parts of what arrived, the rows hold the headers and the clocks of the receipts, and its file is the start of their text. |
| QueueHistories.QueueIs | consumer/pkg/consumer/bufWorker.go:62-72 | In every run the queue holds exactly what was published and neither is with a worker nor was acknowledged; closing a channel gives back what was not. |
| ConsumerHistories.ConsumerHistory | consumer/pkg/consumer/consumer.go:108-142 | In every run the main goroutine and the supervisor are where the sequence says: counts, closes, the slot of the interrupt channel, the sleep, and why the supervisor stops. |
| Traces.RealTimeUntilTimer | producer/pkg/producer/producer.go:229-239 | A real-time generator goes on until its `stop` has been closed, in every run. |
| Traces.EndAfterTimer | producer/cmd/main.go:55-70 | A producer with a real-time generator sends "end" only after its `stop` was closed, by the timer or an interrupt. |
| Traces.SleepAfterPolls | consumer/pkg/consumer/bufWorker.go:214-261 | In every run the supervisor's sleep after k polls is min(100*2^k, 6400) milliseconds. |
| Traces.WorkersDeployed | consumer/pkg/consumer/consumer.go:88-97 | In every run each consumer has NWorkers workers. |
| Handoff.RunGrows | producer/pkg/producer/producer.go:79-137 | From any point of a run to any later one, what was taken, published, sent as "end" or acknowledged only grows, and a generator that has ended hands over nothing more. |
| Handoff.Deployed | producer/pkg/producer/producer.go:69-118 | Every generator keeps the owner and the source that it was deployed with. |
| Handoff.EndBound | producer/pkg/producer/producer.go:120-134 | When "end" has been sent, each worker has published a prefix of what its generator handed over, short of at most the last one, so at most NWorkers messages are unpublished; for real-time and preloaded sources. |
| Handoff.EndFreezes | producer/pkg/producer/producer.go:140-154 | What has been handed over by the time of "end" is all that is ever handed over. |
| Overtaking.EndMayOvertake | producer/pkg/producer/worker.go:38-41 | For a deployment: some run, and even one without interrupts, lets a producer send "end" before its last publish if and only if one of its generators is real-time or has a workload that is not empty. |
| Overtaking.BoundIsReached | producer/pkg/producer/producer.go:79-137 | The bound of `Handoff.EndBound` is reached, without interrupts: every generator with anything to hand over can have its last message unpublished at once. |
| Handoff.EndOvertakes | producer/pkg/producer/worker.go:38-41 | A run in which "end" is sent while the only message is still unpublished. |
| Handoff.WorkloadHandedOver | producer/pkg/producer/producer.go:140-154 | A preloaded generator that was not interrupted has handed over its whole workload, in order, when it is done. |
| Shutdown.StopCause | consumer/pkg/consumer/bufWorker.go:198-264 | The supervisor moves to close `stop` only after a poll that found nothing ready with `done` closed, or because it received an interrupt itself. |
| Shutdown.StopCausality | consumer/pkg/consumer/bufWorker.go:206-264 | With no interrupt at the supervisor, a closed `stop` implies an earlier empty poll by which every configured "end" was heard; with all producers counted, nothing is handed over after it, and whatever is unacknowledged at any later point was then held by or dropped from a producer worker, or delivered and unacknowledged. |
| Shutdown.PollSettles | consumer/pkg/consumer/bufWorker.go:233-263 | Every empty poll after `done` explains all later unacknowledged messages in this way. |
| Shutdown.DoneMeansEnded | consumer/pkg/consumer/consumer.go:109-127 | A closed `done` means that NProducers different producers sent "end" and that all their generators are done. |
| Shutdown.AllEnded | consumer/pkg/consumer/consumer.go:109-127 | With as many producers deployed as configured, those are all of them. |
| Shutdown.ClosedOnce | consumer/pkg/consumer/consumer.go:75-81 | In no run is `stop` or `done` closed twice. |
| Shutdown.ReturnWaits | consumer/pkg/consumer/consumer.go:98-106 | When the wait group lets the main goroutine return, all its workers are finished if and only if all of them have started. |
| Shutdown.ReturnIsDurable | consumer/pkg/consumer/bufWorker.go:91-110 | If all workers had started before the wait, then after the return `stop` is closed, every worker has flushed and closed its channel, its file holds exactly its rows, and there is one row for each acknowledgement. |
| Shutdown.ReturnsTooEarly | consumer/pkg/consumer/consumer.go:98-106 | A run in which the consumer returns before its only worker has started. |
| Shutdown.InterruptLost | consumer/pkg/consumer/consumer.go:128-135 | When the main goroutine takes the only interrupt, then in every continuation without another signal `stop` stays open, the running worker keeps running, and the wait does not end. |
| Interrupts.StuckIsReachable | consumer/pkg/consumer/consumer.go:128-135 | A run that leads there: one worker running, and the only interrupt taken by the main goroutine. |
| Interrupts.OneReachesOne | consumer/pkg/consumer/bufWorker.go:198-205 | After exactly one interrupt and without the last "end", a main goroutine out of its select means a supervisor still in its own with `stop` open, and a supervisor out of its select means a main goroutine still counting. |
| Interrupts.TwoOrDone | consumer/pkg/consumer/consumer.go:108-142 | A consumer with a started worker that has returned had counted all its "end" messages or was interrupted at least twice. |
| Interrupts.TwoInterruptsExactly | consumer/pkg/consumer/consumer.go:128-135 | From every reachable state before the last "end", the consumer can return with n more interrupts and without that "end" if and only if they make two with those its state shows. |
| Drain.DrainTerminates | consumer/pkg/consumer/bufWorker.go:112-149 | Once no producer can publish, every schedule has at most `Potential` deliver, record, acknowledge, stop, flush and requeue steps, whatever else happens in between. |
| Drain.DrainEnds | consumer/pkg/consumer/bufWorker.go:233-263 | Where no such step is left, the queue is empty or no worker has a channel, nothing is unacknowledged, and no worker is halfway out. |
| Drain.WaitersProgress | consumer/pkg/consumer/consumer.go:138-142 | With `stop` closed, a consumer that still waits always has a worker that can take a step of its own. |
| Quitting.QuitAndReturn | consumer/pkg/consumer/bufWorker.go:91-110 | From every reachable state in which a consumer waits with `stop` closed, a schedule exists in which its workers finish the delivery they are at, flush, close and leave, and it returns, having received nothing more. |
| Emptying.AckedExactly | consumer/pkg/consumer/bufWorker.go:112-156 | Once a supervisor is about to close `stop` or has closed it and the main goroutine waits, a message is acknowledged in every continuation in which the consumer returns with all workers started if and only if it is acknowledged already or one of that consumer's workers is between its row and its acknowledgement. |
| Emptying.PollDecides | consumer/pkg/consumer/bufWorker.go:233-263 | At a poll that finds nothing, a message is sure to be acknowledged by then if and only if it is not at risk: not held by or dropped from a producer worker, nor on a channel without being handled by this consumer. |
| Emptying.EmptiedExactly | README.md:77-77 | With all producers counted, everything handed over is acknowledged in every such continuation if and only if nothing is at risk at the poll. |
| Emptying.StopSettles | consumer/pkg/consumer/bufWorker.go:206-264 | A consumer that is gone without an interrupt at its supervisor had an empty poll, and all that is unacknowledged now was at risk then. |
| Emptying.HeldIsLeftBehind | producer/pkg/producer/worker.go:42-64 | Every message that a producer worker holds when a consumer stops can end up in the queue of a consumer that has gone. |
| Emptying.WaitingIsLeftBehind | consumer/pkg/consumer/bufWorker.go:142-149 | So can every message that waits on one of the consumer's own channels. |
| LeftBehind.MessageLeftBehind | README.md:77-77 | For a deployment with a consumer: some run without any interrupt, at whose end every "end" is sent, everything is published and every consumer has returned with all its workers started, leaves a message in the queue, if and only if some generator is real-time or has a workload that is not empty, and NProducers is positive and no more than the producers there are. |
| Automatic.StopsByItself | README.md:75-75 | From every reachable state in which a consumer has not begun or still counts: some continuation closes `done`, and one without any interrupt does, if and only if NProducers is positive and no more than the "end" messages that the consumer has counted, has in its queue, or that are still to be sent. |
| Automatic.EndsMissed | consumer/pkg/consumer/consumer.go:109-127 | In every deployment the producers can all be done before a consumer has bound its queue, and then no continuation closes its `done`. |
| BufWorkers.BufWorker.AckDelivery | consumer/pkg/consumer/bufWorker.go:138-141 | On a channel handled in order, the acknowledgement of the oldest delivery takes it, and it alone, off the channel, for both settings of AckMultiple. |
| BufWorkers.BufWorker.ListenAndStore | consumer/pkg/consumer/bufWorker.go:112-156 | The loop leaves channel, rows and writer as the protocol's steps for the same receptions do. |
| BufWorkers.BufWorker.Start | consumer/pkg/consumer/bufWorker.go:62-110 | From Consume to the deferred close: the oldest deliveries are acknowledged in order, each with its row, and the file is exactly the text of the rows. |
| BufWorkers.PlayedLog | consumer/pkg/consumer/bufWorker.go:112-149 | For every interleaving of arrivals, receptions and buffer flushes and both settings of AckMultiple, the acknowledged deliveries are a prefix of the arrivals, the rest waits in order, and no text is lost. |
| BufWorkers.ScriptIsRun | consumer/pkg/consumer/bufWorker.go:112-149 | Playing a script is a run of the protocol that changes this worker and the queue and nothing else. |
| Supervision.SleepIs | consumer/pkg/consumer/bufWorker.go:253-261 | The k-th sleep is min(100*2^k, 6400) milliseconds. |
| Supervision.SleptIs | consumer/pkg/consumer/bufWorker.go:253-261 | The first k sleeps last 200*(2^k-1) milliseconds for k up to 6, and 12600+6400*(k-6) beyond. |
| Supervision.WaitUntilEmpty | consumer/pkg/consumer/bufWorker.go:214-263 | The polling loop ends at the first count of zero, and only there, after one sleep for each count before; without a zero it goes on. |
| Supervision.NoticedWithinOneSleep | consumer/pkg/consumer/bufWorker.go:233-263 | A queue that stays empty from some time on is noticed within one sleep, so at most 6400 milliseconds later. |
| Supervision.RoundsSleep | consumer/pkg/consumer/bufWorker.go:253-261 | The protocol's supervisor has the same sleeps. |
| EndCounting.EndCounter.CountEnds | consumer/pkg/consumer/consumer.go:108-137 | `done` is closed, once, if and only if NProducers is positive and that many "end" messages come before any interrupt; nothing is received afterwards. |
| EndCounting.HeardCounts | consumer/pkg/consumer/consumer.go:111-122 | The protocol's consumer counts, closes and stops at the same message. |
| ProducerLoops.DistributeWorkload | producer/pkg/producer/producer.go:140-154 | Hands over the workload in order, up to its end or the first interrupt. |
| ProducerLoops.Generate | producer/pkg/producer/producer.go:210-243 | Hands over the first messages drawn, each of the configured size and of bytes a to z, one for each reception before `stop`, whether or not `stop` is ever closed. |
| ProducerLoops.ProducerWorker.Start | producer/pkg/producer/worker.go:42-66 | Publishes every message taken, once and in order, with the printed clock of its publish as header. |
| ProducerLoops.HandedOverIs | producer/pkg/producer/worker.go:42-66 | The protocol's pair publishes the same. |
| Buffering.Buffer.constructor | consumer/pkg/buffer/buffer.go:29-36 | A new buffer is empty, with every slot (0,0). |
| Buffering.WriteSlots | consumer/pkg/buffer/buffer.go:79-104 | The file gets the titles and the slots up to the first (0,0). |
| Buffering.Buffer.Flush | consumer/pkg/buffer/buffer.go:65-107 | Writes the used slots to a new file and empties the buffer, or leaves everything as it was when the file cannot be created. |
| Buffering.Buffer.Store | consumer/pkg/buffer/buffer.go:40-60 | Appends to the contents; a full buffer is flushed first into the next dump; size 0 is an error. |
| Buffering.Buffer.Close | consumer/pkg/buffer/buffer.go:109-119 | Flushes what is left; an empty buffer leaves no file. |
| BufferLog.RecordAll | consumer/pkg/consumer/worker.go:70-119 | After one store per event and the close, the disk is what the append-only log says if every file that the log calls for can be created, and the outcome is an error otherwise; for every size. |
| BufferLog.StoreAll | consumer/pkg/buffer/buffer.go:46-56 | After n >= 1 stores nFlush is (n-1)/size, ptr is n - size*nFlush, between 1 and size, and the slots from ptr on are unused. |
| BufferLog.FilesCount | consumer/pkg/buffer/buffer.go:109-119 | n stores and a close leave exactly ceil(n/size) different files of the buffer's own. |
| BufferLog.ClosedForm | consumer/pkg/buffer/buffer.go:46-56 | The log of n >= 1 stores has (n-1)/size full blocks, and between 1 and size measurements in the last one. |
| BufferLog.LogCounts | consumer/pkg/buffer/buffer.go:46-56 | Every flushed block has exactly `size` measurements and the counts add up. |
| BufferLog.LogFlattens | consumer/pkg/buffer/buffer.go:40-60 | The blocks in flush order concatenate to the stored sequence. |
| BufferLog.ReadDumpText | consumer/pkg/buffer/buffer.go:79-104 | A dump read back is its block up to the first (0,0). |
| Columns.DumpByName | consumer/pkg/buffer/buffer.go:79-104 | A dump, read by the names of its columns, says the same of its measurements. |
| Columns.DumpContributes | lib/utils/utils.go:57-81 | A dump contributes exactly the lines of its measurements to the merge, without its titles. |
| BufferLog.DumpIsOf | consumer/pkg/buffer/buffer.go:49-49 | No two dumps or flushes of an experiment share a file, of one worker or of two. |
| BufferLog.RefinesLog | consumer/pkg/buffer/buffer.go:40-119 | The files read in flush order give the stored sequence cut into blocks, each up to its first (0,0), and so exactly the stored sequence if and only if no (0,0) was stored. |
| Decimal.ParseFormat | producer/pkg/producer/worker.go:47-48 | Every int64 survives printing and parsing. |
| Decimal.ParseSigned | consumer/pkg/consumer/bufWorker.go:123-131 | Digits with or without a sign parse to their value, if it fits an int64. |
| Decimal.ParseNothingElse | consumer/pkg/consumer/bufWorker.go:123-131 | Nothing else parses. |
| Decimal.ParsedExactly | consumer/pkg/consumer/bufWorker.go:123-131 | For every string, what the parser gives when its error is ignored, as it is for the header: 0 for no number, the nearest bound for a number out of range. |
| Text.ScanUnlines | lib/utils/utils.go:57-81 | Scanning gives back exactly the lines that were written, for lines without line ends that fit the scanner's buffer. |
| Text.ScanExactly | lib/utils/utils.go:66-72 | For every text: the first token is the first line without its carriage return and the rest is scanned on, or nothing more comes when the line is longer than 65535 characters; a last line needs no newline. |
| Text.ParseRowLine | consumer/pkg/consumer/bufWorker.go:131-132 | A row read back is the row that was written, for all int64 values. |
| Merging.AppendLines | lib/utils/utils.go:57-81 | Appends all lines of one file to the target but the buffer's column titles. |
| Merging.MergeMeasurements | lib/utils/utils.go:21-93 | Succeeds exactly when the directory can be read, the target created, and the target is not itself one of the files to be merged; it is then the line `tProducer,tConsumer` and the kept lines of all merged files in listing order. |
| Columns.MergedByName | lib/utils/utils.go:43-43 | Read by the names of its columns, a merged file of rows says `tProducer` of the producers' clocks and `tConsumer` of the consumers'. |
| Merging.TargetNeverEnds | lib/utils/utils.go:66-81 | A target that is one of the files to be merged is never read to its end: after any number of lines read there are more. |
| Merging.LinesOfRows | lib/utils/utils.go:66-72 | No data row is mistaken for the titles: a worker's file contributes exactly its rows, in order. |
| Archiving.NewMeasurements | lib/utils/utils.go:111-127 | Finds new data if and only if something at the top level that is not a directory has `experiment-run` in its name. |
| Archiving.NamesExactly | lib/utils/archive.go:61-61 | Which names count as new data and which are moved, by their characters. |
| Archiving.MoveMeasurements | lib/utils/archive.go:51-72 | Renames every csv file of the listing, in order, stopping at the first failure. |
| Archiving.MoveAllWorks | lib/utils/archive.go:51-72 | When the files are there and their destinations free of directories, every csv file is at its new place and nothing else has changed. |
| Archiving.ArchiveMeasurements | lib/utils/archive.go:76-99 | Does nothing without new data; otherwise makes the subdirectory and moves, failing where either fails. |
| Archiving.ArchiveExactly | lib/utils/archive.go:76-99 | With new data it succeeds if and only if the subdirectory's name is free and no directory is in the way of a csv file; then the subdirectory is there, every csv file has moved into it, and nothing else has changed. |
| Archiving.ArchiveLeaves | lib/utils/archive.go:78-86 | Without new data everything stays as it was; a missing directory is an error. |
| ExperimentId.Config.IncrementExperimentId | lib/config/config.go:89-116 | On success id and stored configuration are the next id. On an error the stored one is unchanged, and the id in memory is unchanged if and only if it has no number: a file that cannot be created comes after the assignment. |
| ExperimentId.RunNumberOfRunId | lib/config/config.go:93-93 | The number is found again in every printed id. |
| FileSystem.FindNumberExactly | lib/config/config.go:93-93 | On any string, what the regexp captures: all digits behind the leftmost prefix that has a digit behind it, and nothing exactly when there is none. |
| ExperimentId.IncrementCounts | lib/config/config.go:89-116 | The id goes from run n to run n+1 if and only if n is below the largest int. |
| ExperimentId.NextIdExactly | lib/config/config.go:89-108 | For any id: the number in it goes up by one, wrapping at the largest int, and the rest of the id is replaced; an error without a number or with one out of range. |
| Sessions.ConsumerMain | consumer/cmd/main.go:21-59 | Merge, archive and increment in this order; the merged file is there under the id, `-node-`, the node's number and `.csv`. A failed run leaves the stored configuration as it was, and changes the id in memory if and only if all that failed was to store it. |
| Sessions.SessionExactly | consumer/cmd/main.go:33-59 | A run succeeds if and only if each step can, on the disk as the steps before have left it. |
| ResultNames.ResultTells | consumer/cmd/main.go:46-46 | From the names of the output file and of the subdirectory the regexps of the analysis find the run's number, and the node's exactly when it is not negative. |
| ResultNames.ResultIsOf | lib/utils/archive.go:88-88 | An output file or subdirectory name belongs to one run and one node only, whatever the signs. |
| ResultNames.WorkerFileTells | consumer/pkg/consumer/bufWorker.go:47-47 | The same two numbers are found in the name of a worker's file. |
| ResultNames.WorkerFileIsOf | consumer/pkg/consumer/bufWorker.go:47-47 | The name of a worker's file belongs to one run, one node and one worker. |
| ResultNames.NodesApart | consumer/cmd/main.go:43-59 | A session on one node changes no result of another, even in the same directory. |
| ResultNames.GatheredApart | infrastructure/setup/get_data.sh:28-29 | With the output directories of all nodes copied into one, every node's results are all there. |
| Sessions.RunSucceeds | consumer/cmd/main.go:43-59 | From a clean data directory with unused names every run below the int limit succeeds and leaves its output with its own rows only, whatever order the directories are listed in. |
| Sessions.RunLeavesReady | consumer/cmd/main.go:43-59 | A finished run leaves the directories ready for the next number. |
| Sessions.AllRunsSucceed | consumer/cmd/main.go:43-59 | Over any number of runs: all succeed, the id goes up by one each time, no directory is met again, no csv file stays at the top level, every output file is still there with its own rows, and every worker's file is in the subdirectory of its run. |
| EndToEnd.AnyListing | lib/utils/utils.go:37-83 | In whatever order the directory is listed, the merged rows are the workers' rows as a multiset. |
| EndToEnd.AllPersisted | consumer/pkg/consumer/bufWorker.go:91-95 | After a return with all workers started, each worker's file holds exactly its rows. |
| EndToEnd.OutputIsRowsOfAcks | consumer/cmd/main.go:33-59 | From a clean directory, the output file of a returned consumer is one header and then exactly one row per acknowledgement, each worker's rows in one piece and in order; read by its columns `tProducer` and `tConsumer` it says, as a multiset over the messages acknowledged, when each was published and when it was received, by the clocks in the sequence of actions. |
| EndToEnd.EveryOutputIsRowsOfAcks | consumer/cmd/main.go:33-59 | Over any number of experiments in the same directories, each followed by one run of the program: all runs succeed, and in the end every output file holds just that of its own experiment. |
| Network.ToMap | monitoring/pkg/measurements/network.go:27-36 | The interfaces of a sample, each with the received and transmitted bytes of the last entry that has its name. |
| Network.NewNetworkMeasurement | monitoring/pkg/measurements/network.go:25-58 | From the entries of the two samples: each interface gets the wrapping differences, absolute values if it is new, and no row if neither counter moved. |
| Network.ChangeIs | monitoring/pkg/measurements/network.go:38-54 | What a difference says of the entries: received and transmitted bytes each right modulo 2^64. |
| Network.Records | monitoring/pkg/measurements/network.go:62-75 | One record for each interface, with the timestamp and both values, in some order. |
| NetworkMonitor.Monitor.Tick | monitoring/pkg/monitor/monitor.go:108-123 | Appends the records of the difference to the previous sample, none at the first, and keeps the sample. |
| NetworkMonitor.Monitor.Start | monitoring/pkg/monitor/monitor.go:71-131 | The file is the titles and then the records of every tick in order. |
| NetworkMonitor.RowSays | monitoring/pkg/measurements/network.go:62-75 | Read by the names of the columns, each row of the file has the time of its sample, an interface, and what changed at that interface since the sample before. |
| NetworkMonitor.LoggedSum | monitoring/pkg/monitor/monitor.go:108-123 | The columns `RxBytes` and `TxBytes` of an interface, found by their names, add up to the differences tick by tick; the omitted zero rows change nothing. |
| NetworkMonitor.Telescopes | monitoring/pkg/measurements/network.go:38-54 | For every sample sequence the written values add up to the totals of the presence runs plus 2^64 for each wrap. |
| NetworkMonitor.SumIsExactUnlessWrapped | monitoring/pkg/measurements/network.go:38-54 | The column total of a file is right modulo 2^64 always, and exactly right if and only if the counter never wrapped. |
| Cpu.RowShare | monitoring/pkg/measurements/cpu.go:34-43 | A percentage weighted with the row's total change is 100 times the change of its counter. |
| Cpu.PercentagesTelescope | monitoring/pkg/measurements/cpu.go:30-56 | Over any sample sequence the weighted percentages add up to 100 times the overall change. |
| Cpu.RowBounds | monitoring/pkg/measurements/cpu.go:34-43 | The three percentages lie in 0 to 100 and together stay within 100 when the parts stay within the total. |
| Cpu.RowSays | monitoring/pkg/measurements/cpu.go:58-70 | Read by the names of the columns, a row has its time, the counters of its own sample, and for user, system and idle the share in the change of the total, with wrapping counters. |
| RunNames.OutputNumber | monitoring/cmd/main.go:113-113 | The regexp finds the run number of a printed name if and only if node and run are not negative. |
| RunNames.FindRunExactly | monitoring/cmd/main.go:113-113 | On any name, the regexp captures the run of its leftmost match, and nothing exactly when there is none, by the parts that a match is made of. |
| MonitorRuns.GetNextExpNumber | monitoring/cmd/main.go:100-131 | One more than the largest number found, wrapping at the largest int; 0 when there is none; an error when the directory cannot be read. |
| MonitorRuns.OpenOutputs | monitoring/cmd/main.go:32-48 | Where the directory is there or can be made, a start succeeds exactly when no directory has one of the three names; then the directory is there, the three files are there and empty, and nothing else has changed. Otherwise it fails. |
| RunNames.OutputIsOf | monitoring/cmd/main.go:38-48 | A printed file name belongs to one node and one run only, whatever their signs. |
| MonitorRuns.SparedExactly | monitoring/cmd/main.go:99-131 | Over any sequence of starts on any nodes: the run number is that of the first start plus the starts on non-negative nodes before, up to the largest int and wrapping there once; and a start finds none of its files there if and only if its node is not negative and the limit not reached, or its names were not there at first and the number has moved on since every earlier start on its node. |
| MonitorRuns.NeverClobbers | monitoring/cmd/main.go:38-48 | Over any number of starts on nodes with non-negative numbers, whatever else lies in the directory: run numbers go up by one and every file is new. |
| MonitorRuns.SecondStart | monitoring/cmd/main.go:113-113 | A second start on a node spares the first one's files if and only if the node's number is not negative and the run number has room to grow below the limit of an int, or nothing in its place beyond it. |
| MonitorRuns.NodeMinusOne | monitoring/cmd/main.go:113-113 | Two starts on node -1 in an empty directory get the same number, and nothing of the first is left. |
| Workloads.GenerateMessages | producer/pkg/workload/generate.go:38-53 | All messages have the configured size and the drawn bytes, a to z. |
| Workloads.WriteFile | producer/pkg/workload/generate.go:93-110 | One file gets the next nPerFile messages, a line each, and the index moves past them. |
| Workloads.Store | producer/pkg/workload/generate.go:59-116 | Fails on an uneven split or an existing directory; otherwise the message index ends at the end of the workload and every file has its slice. |
| WorkloadRoundTrip.StoreLeaves | producer/pkg/workload/generate.go:85-110 | File k is `workload-worker-k` in `workloads/` and the subdirectory, and holds the messages from k*n on, n of them, a line each. |
| Workloads.StorePartitions | producer/pkg/workload/generate.go:65-113 | The slices in file order concatenate to the workload, each with exactly len/nSplit messages. |
| Workloads.ReadWorkload | producer/pkg/workload/load.go:63-75 | Every token without its last byte; an empty token panics. |
| Workloads.LoadWorkloads | producer/pkg/workload/load.go:19-80 | Places every file's workload at the number in its name, with the error and panic cases. |
| Workloads.LoadExactly | producer/pkg/workload/load.go:19-80 | Loading fails for a missing directory; otherwise it loads, with one place for each workload file, exactly when no number is out of range and no token is empty, and the first file that is not fine decides between failure and panic. |
| Workloads.LoadPlaces | producer/pkg/workload/load.go:39-76 | Of any directory that loads: place k has the messages of the last file with that number, every token without its last byte, and nothing if there is no such file. |
| WorkloadRoundTrip.ReadBack | producer/pkg/workload/load.go:63-75 | A stored file of letters gives the messages before the first that does not fit the scanner's buffer, without their last bytes, or a panic if one of those is empty. |
| WorkloadRoundTrip.ReadBackInFull | producer/pkg/workload/load.go:63-75 | It comes back in full length if and only if every message fits and none is empty. |
| WorkloadRoundTrip.RoundTrip | producer/pkg/workload/load.go:42-79 | In any listing order, slot k, entry i is message k*(len/nSplit)+i without its last byte, and every slot is filled. |
| WorkloadRoundTrip.LoadsUnlessEmpty | producer/pkg/workload/load.go:63-75 | A stored workload of letters within the limit loads if and only if no message is empty, and panics otherwise. |
| WorkloadRoundTrip.ComesBackExactly | producer/pkg/workload/load.go:42-79 | For all workloads of letters and all listing orders: what was stored comes back, but for the last bytes, if and only if every message fits the scanner's buffer and none is empty. |
| WorkloadRoundTrip.LoadsAsItWas | producer/pkg/workload/load.go:63-77 | What was stored is loaded as it was, byte for byte, if and only if the workload was empty. |

## Left out

Environment and idealisations:

- RabbitMQ, the AMQP client, JSON, logging and the operating system are environment steps or total functions. Connection
  failures and the panics of `utils.Handle` are not modelled, except that a producer's exit may drop a held message.
- `autoAck` is false, as in the shipped configuration. No prefetch limit is assumed, since `Qos` is called after
  `Consume`. The queue is a multiset, so delivery may reorder.
- Concurrency is a step system on values; the loop modules tie the goroutine bodies to it, but shared memory, aliasing
  and the Go memory model are not represented. After the main goroutine has returned, none of its workers starts.
- That `stop` of a producer is closed by its timer or by an interrupt there is one action; the duration is no part of it.
- The loop modules are given the finite script of what a goroutine's selects receive, or its polls find, so far.
- Wall-clock times and random bytes are arbitrary inputs. The text of a buffered writer may reach the file at any point.
- Files are texts of characters; each directory is known by one spelling of its path; renames and directory listings
  follow the map model. A failed move loses the partial result.
- The scanner's tokens are copied values, where the library reuses its buffer. Its 64 KiB limit is modelled.
- Panics and failures that a failing `Atoi` of the node number causes are not modelled; the node number is given.
- Writing to a file that could be created does not fail. Whether the configuration file can be created is an input.

Members stated for less than everything:

- Sessions.ConsumerMain: each directory listing is what the disk holds then. An error also stands for a merge without
  an end. That the merged file is there is stated for an output directory that is neither the data directory nor the
  run's subdirectory of it.
- ResultNames.GatheredApart: each output directory holds results of its own node only.
- Sessions.AllRunsSucceed: data and output directory are different and the configuration file can be created.
- Emptying.PollDecides: for a main goroutine that waits at the poll, or has returned with all its workers started; after
  a return without them no continuation has them all started.
- Workloads.Store: no directory has one of the names in the new workload directory.
- MonitorRuns.NeverClobbers: below the limit of an int; what happens at it is in MonitorRuns.SparedExactly.
- Cpu.RowSays: numbers as numbers; how "%d" and "%f" print them is not modelled.
- Cpu.PercentagesTelescope: exact arithmetic over reals, with a positive change of the total; rounding and NaN are not
  modelled.
- Network.NewNetworkMeasurement: an empty sample and a nil slice are the same.
- WorkloadRoundTrip.RoundTrip: message bytes are a to z, as the generator draws them.
- Handoff.WorkloadHandedOver: for generators that no interrupt ended; a real-time source has no end of its own.
- LeftBehind.MessageLeftBehind: for deployments with at least one consumer.
- Automatic.StopsByItself: that `done` can be closed; schedules that starve a goroutine for ever are not excluded.

Not modelled:

- A workload directory with fewer files than generators, which makes the producer panic.
- `memory.go`, `bsize.go`, `server.go`, the type dispatch of `measurement.go`, the deprecated `Consumer.Start`, the second
  `GetNextExpNumber` in `archive.go`: they add no property of their own.
- The cast of `x-quorum-initial-group-size`, a map copy.
- Of the configuration file, everything but the experiment id.
- `analysis/` and `infrastructure/`.
