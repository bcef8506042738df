# GOfax.IP: sending protocol, queue file, sequence numbers and modem pool

GOfax.IP connects HylaFAX to FreeSWITCH. This project models the parts of it that keep state over
time or share it between processes, and proves what they promise.

* **One transmission** (`Session*.dfy`, `Receiver.dfy`, `Fax.dfy`). The sender goroutine folds telephony
  events into a fax result and hands results, pages and errors over unbuffered channels; the status loop
  receives them and keeps the queue file and the return code up to date. The result crosses the channel by
  reference, so the sender may change it while the receiver reads it. `Session` is the protocol as a
  step system over both program counters; a run is a list of actions, and every theorem is about every run.
  A received result is read in three separate steps (rate and remote id, hangup cause, the rest).
* **One attempt and all attempts** (`Sending.dfy`, `History.dfy`, `Outcomes.dfy`, `Retries.dfy`,
  `ModemSettings.dfy`, `Driven.dfy`). `SendQfile` as it works on the queue file object; which code it returns,
  what it records and what it leaves in the file, on every path and after every failing rewrite; and what
  follows, for counters, modem settings and readability, over any number of attempts that read the file the
  last one wrote, with any protocol runs in their status loops.
* **The queue file** (`QueueFormat.dfy`, `Qfile.dfy`, `Qmemory.dfy`, `SpoolFile.dfy`). Parser, printer,
  in-place rewrite, and the in-memory stand-in.
* **Sequence numbers** (`Sequence.dfy`, `Allocator.dfy`). The locked read, increment and rewrite, alone and
  interleaved by any number of processes.
* **Modems** (`Modems.dfy`). Devices and manager as objects; the pool under concurrent handlers.
* **Fallback, dialstring, transfer log** (`Fallback.dfy`, `Dialstring.dfy`, `Xferlog.dfy`).

## How to read the model

Go's `int` and `uint` are 64 bits wide; `Decimal.WrapInt` and `Decimal.Uint` say what is left of a number in
them. Counters that would need 2^64 events in one call (`NegotiateCount`) are unbounded. Text and files are
sequences of characters. Time, the event source, the operating system's answers and scripts are inputs. An
event is a record of the headers the code looks at; numbers in it are still text and go through `Atoi`. A
telephony event stream is any finite list of events followed by a stream error; a signal may come at any
time. `AddEvent` and the event arm around it are one step of the protocol.

The code is followed where it and its description differ, and these lemmas say so:

* A failed DynamicConfig script is meant to let the job be retried (gofaxsend/sendqfile.go:124-133), but the
  status written then ends in a newline, and the file can never be parsed again
  (`History.ScriptFailureSpoilsFile`).
* `Qmemory` is described as providing the same functionality as `Qfile` (gofaxsend/qmemory.go:8). It does so
  for `Set` exactly on tags that occur at most once (`QueueTable.SetKeepsAgreement`).
* A negotiation can go uncounted in `tottries`, because the result is shared: exactly when the event list
  has a negotiation and, before anything else is handed over, the first hangup
  (`SessionOvertake.UncountedExactlyWhenOvertaken`). Handing over copies would rule it out.
* The indexing of page results panics exactly on event lists with a stray page count
  (`SessionPages.PanicsExactlyOnStray`).
* Two calls can be given the same modem, since reading and setting a modem's state are two steps: exactly
  when one call finds a modem ready that another one has found ready and not yet taken
  (`Pool.SplitSharesExactlyOnOverlap`).
* A sequence number can be returned twice, exactly when a process fails between emptying and writing the file
  after a first number has been issued (`Allocator.RepeatsExactlyAfterLateLoss`).

`hide` statements only keep definitions that a proof does not need away from the solver.

## Model

| member | source | states |
|---|---|---|
| Fax.FaxResult.AddEvent | gofaxlib/faxresult.go:112-209 | the object after one event is the pure fold step of the object before |
| Fax.FoldSummarises | gofaxlib/faxresult.go:112-209 | over any trace: counts are the numbers of negotiation and page events, flags are sticky existentials, every other field is what the last event that reports it says |
| Fax.PageResultsFollowEvents | gofaxlib/faxresult.go:145-181 | the k-th page result belongs to the k-th page event and holds the page count at that moment, whether or not its header parses, and that event's bad rows and encoding |
| SessionSafety.FrozenStep | gofaxsend/transmission.go:207-241 | every step of either process keeps: while the sender works, a hangup cause is present exactly when only the final hand-over is left to it; once it has returned, exactly when it did not end on an error |
| SessionSafety.PairedStep | gofaxsend/transmission.go:240-256 | every step keeps the pairing of the two program counters: the receiver holds a final result iff the sender has returned, and waits only for a sender that has not |
| SessionSafety.ResultFreezes | gofaxsend/transmission.go:207-241 | once a hangup cause is in, the live result never changes in any continuation |
| SessionSafety.ReturnCodeIsRight | gofaxsend/sendqfile.go:235-273 | in every reachable state: left by a result, SendDone iff success, and the status is the result's text; left by an error, the code and status are the error's; SendDone never without success and hangup cause |
| SessionErrors.ErrorExitIsRight | gofaxsend/transmission.go:249-255 | on the actions alone: a placed call ends on an error iff the stream failed or a signal came, gives the job up iff there was a signal and else lets it be retried, with the first error's message as status and a sender that is gone iff that was the stream's |
| SessionErrors.FailedCallIsTold | gofaxsend/transmission.go:72-190 | a call that could not be placed ends the loop on that error, with its message and its retry flag |
| SessionErrors.SignalCanEndLoop | gofaxsend/transmission.go:252-255 | whenever the loop waits for a selecting sender a signal can end it, the job given up and the sender going on |
| SessionSafety.TriesMatchNegotiations | gofaxsend/sendqfile.go:235-262 | on leaving the loop tottries has grown by NegotiateCount, less one exactly when the loop is left on an intermediate result, which takes a shared result and a sender blocked on its final one |
| SessionOvertake.MissedExactlyWhenOvertaken | gofaxsend/sendqfile.go:235-262 | the loop can be left on an intermediate result iff results are shared and the event list has a negotiation, then only events that hand nothing over, then the first hangup, with no stray page count before it |
| SessionOvertake.UncountedExactlyWhenOvertaken | gofaxsend/sendqfile.go:235-262 | the exact condition for tottries to fall behind NegotiateCount in some interleaving, on the event list alone |
| SessionSafety.SenderStaysBlocked | gofaxsend/transmission.go:240-241 | a sender whose final result nobody takes is blocked for good |
| SessionProgress.NoLostEnding | gofaxsend/transmission.go:72-256 | whenever the status loop waits, the sender has not returned |
| SessionProgress.NeverStuck | gofaxsend/sendqfile.go:225-275 | until the loop is left some process can move, unless indexing panicked |
| SessionProgress.StatusLoopTerminates | gofaxsend/sendqfile.go:225-275 | a linear bound on the moves before the loop is left, and every run that cannot go on has left it or panicked |
| SessionPages.PanicsExactlyOnStray | gofaxsend/transmission.go:245-247 | a panic is reachable iff some event before any hangup changes the page count to one without a page result |
| SessionPages.GradualNeverPanics | gofaxsend/transmission.go:245-247 | counts that rise by at most one per page report and only there never make the indexing panic |
| SessionPages.PagesArriveInOrder | gofaxsend/sendqfile.go:228-233 | with consecutive page reports the receiver gets the page results in order, once each, page n being the n-th, and npages ends as their number |
| Fallback.EventArm | gofaxsend/transmission.go:206-248 | the imperative event arm on the live result does what the protocol's fold step does |
| Fallback.Decide | gofaxsend/transmission.go:212-236 | fallback is asked for iff it is enabled and the failed result has repeated negotiations or a non-zero 64-bit sum of bad rows |
| Fallback.FallbackOfTrace | gofaxsend/transmission.go:212-236 | that condition as a property of the trace: no success reported, and two negotiations or a page with bad rows |
| Fallback.OutboundFallback | gofaxsend/transmission.go:208-238 | in every reachable state fallback has been requested iff hung up, enabled and the trace is troubled |
| Fallback.Handle | gofaxd/server.go:251-333 | the inbound loop in place: result, kill and decision are those of what it hears |
| Fallback.NoticesDoNotMatter | gofaxd/server.go:255-258 | disconnect notices, wherever they come, change nothing that the loop hears |
| Fallback.ListenIsExact | gofaxd/server.go:251-290 | for any inputs the loop ends at the first kill or first hangup cause, whichever comes first, or at the end of the stream, with exactly the events up to there |
| Fallback.KilledExactlyWhen | gofaxd/server.go:284-289 | the handler is killed iff a kill comes before the first hangup cause |
| Fallback.BothSidesAgree | gofaxd/server.go:307-326 | told its side of the same events of a call that hangs up, with any disconnect notices among them, a receiving server that is not killed before the hangup has the same result and decides alike |
| Receiver.TriesCountNegotiations | gofaxsend/sendqfile.go:249-259 | tottries is the old value plus the negotiations among the arrivals, in Go's integers |
| Receiver.LastPageShows | gofaxsend/sendqfile.go:228-233 | npages and dataformat are those of the last page that arrived, or unchanged |
| Receiver.LastHeadShows | gofaxsend/sendqfile.go:235-237 | csi and signalrate are what the last result said when its head was read, or unchanged |
| Receiver.NegotiationShows | gofaxsend/sendqfile.go:250-259 | a counted negotiation shows in the status of the loop and of the file |
| Receiver.NegotiationStatusReads | gofaxsend/sendqfile.go:250-253 | that text reads back as the rate in decimal, and as ECM iff it is used |
| Sending.TakeArrival | gofaxsend/sendqfile.go:227-273 | one round of the status loop in place: loop variables, parameters, and the exact file contents however the rewrite goes |
| Sending.StatusLoop | gofaxsend/sendqfile.go:225-275 | the loop ends with the fold of all arrivals, one rewrite per arrival that does not end it, and the file as those rewrites leave it, failed ones included |
| Sending.SendQfile | gofaxsend/sendqfile.go:58-281 | every branch: parameters, code, error, modem settings, and the exact file contents after any combination of complete, cut short and failed rewrites |
| Sending.SendQfileFromDisk | gofaxsend/sendqfile.go:46-55 | a file that cannot be locked or read is a failure that leaves it alone; otherwise code, error and file contents are those of the attempt on the parsed parameters |
| Outcomes.RefusedExactlyWhen | gofaxsend/sendqfile.go:59-115 | an attempt is an error, which touches nothing, iff the job id is no number or zero, no fax file is named, the files cannot be merged or there is no comm id |
| Outcomes.CallsOnlyOnceRecorded | gofaxsend/sendqfile.go:207-219 | a call is made only after the file, served to the disk, says Dialing and counts the dial |
| Outcomes.CodeOfAttempt | gofaxsend/sendqfile.go:58-281 | on every path: SendDone iff a call was made and ended in a hangup with success reported; SendFailed iff refused, rejected, stopped at its first rewrite or ended by an error without retry; SendRetry otherwise |
| Outcomes.RecordOfAttempt | gofaxsend/sendqfile.go:117-281 | on every path past the refusals: the comm id given, the code returned as the number 0, 1 or 2 where one is recorded, and the status of that path |
| Outcomes.FileFollowsCall | gofaxsend/sendqfile.go:228-262 | during the call, after each arrival whose rewrite lands, the file is exactly the parameters with all arrivals so far |
| History.AttemptKeepsTheRest | gofaxsend/sendqfile.go:207-281 | on every path, tags the attempt does not own keep their value lists and no parameter moves |
| History.CountersAfterAll | gofaxsend/sendqfile.go:249-262 | tottries and ndials in the file agree with the variables once a negotiation is counted and are untouched before |
| History.RecordAgreesWithRun | gofaxsend/sendqfile.go:207-281 | at the final write returned, totdials, tottries and ndials are what the run did |
| Sending.LastWriteDecides | gofaxsend/sendqfile.go:124-281 | if the last rewrite lands, the file is exactly the printed parameters of the attempt, whatever became of the rewrites before it |
| History.CountersOfAttempt | gofaxsend/sendqfile.go:58-281 | on every path: totdials is one more iff the attempt dials, tottries more by the negotiations counted, and both untouched by a rejection, a failed script or an attempt that stops early |
| History.ReadableUnlessScriptFails | gofaxsend/sendqfile.go:124-281 | for every prepared attempt with clean texts whose last rewrite lands: the file can be read again iff the script did not fail, and it then holds the parameters of the attempt |
| History.ScriptFailureSpoilsFile | gofaxsend/sendqfile.go:124-133 | for all parameters and error texts, a failed script yields SendRetry and a file that no longer parses |
| Retries.StaysReadable | gofaxsend/sendqfile.go:46-281 | a try that stops before writing, or whose texts are clean, last rewrite lands and script does not fail, leaves a readable file with exactly the parameters of the attempt |
| Retries.DialsRiseByOne | gofaxsend/sendqfile.go:207-214 | a try raises totdials, as re-read from the file, by exactly one iff its dial got into the file and totdials is not the largest int; any other try leaves it |
| Retries.HistoryCounts | gofaxsend/sendqfile.go:46-281 | over any number of tries, rejected, unprepared and unlocked ones and failed intermediate rewrites included, totdials counts the dials recorded and tottries all negotiations, through printing and parsing each time |
| Retries.TriesNeverFall | gofaxsend/sendqfile.go:249-259 | below the integer limit tottries never falls from one try to a later one |
| Retries.DialsNeverFall | gofaxsend/sendqfile.go:207-211 | nor does totdials, which is its first value plus the dials recorded so far |
| Retries.JobIsKept | gofaxsend/sendqfile.go:58-93 | job id, fax files and modem wishes are the same after any number of tries: a job that can be sent stays one |
| Retries.DegradationSticks | gofaxsend/sendqfile.go:81-89 | once a try disables V.17 or ECM all later ones do, configuration unchanged |
| ModemSettings.SettingsAfterHistory | gofaxsend/sendqfile.go:81-205 | at the next call after any number of tries: V.17 is off iff the job asks for less than 14400 baud or the counted negotiations reach the V.17 threshold; ECM is off iff the job asks for that or they reach the ECM threshold |
| ModemSettings.WishesAlone | gofaxsend/sendqfile.go:81-89 | with no threshold reached: V.17 is off iff desiredbr is below 5, ECM iff desiredec is 0, and an absent wish changes nothing |
| Retries.AttemptOverSession | gofaxsend/sendqfile.go:216-281 | an attempt over any protocol run returns and records that run's code, and as status the result's text or the error's, and records SendDone only for a fax that succeeded |
| Driven.DrivenArrivals | gofaxsend/sendqfile.go:225-275 | what a protocol run with clean event texts delivers: a complete loop of clean arrivals, with every negotiation that the result counts but for a missed one |
| Driven.DrivenHistoryCounts | gofaxsend/sendqfile.go:46-281 | over any number of tries with any protocol runs behind them: tottries in the file is its first value plus all negotiations that the runs' results count, less the missed ones |
| Driven.NothingMissedIn | gofaxsend/sendqfile.go:235-262 | if no run has a negotiation that the first hangup overtakes, or copies are handed over, none is missing over the whole history |
| DiskQueue.OpenQfile | gofaxsend/qfile.go:58-97 | accepts exactly the texts that parse, with their parameters, and gives the same error otherwise |
| DiskQueue.Qfile.Write | gofaxsend/qfile.go:105-130 | success iff every step is served, and the exact contents in every case: the printed parameters, or the printed prefix over the old text where the rewrite stopped |
| DiskQueue.Qfile.GetAll | gofaxsend/qfile.go:134-142 | all values of the tag in order |
| DiskQueue.Qfile.GetString | gofaxsend/qfile.go:145-152 | the first value of the tag |
| DiskQueue.Qfile.Set | gofaxsend/qfile.go:166-176 | replaces the first value of the tag or appends it |
| QueueFormat.PrintParseRoundTrip | gofaxsend/qfile.go:80-119 | parsing a printed list gives the list back iff every parameter is clean |
| QueueFormat.ReprintAccepted | gofaxsend/qfile.go:80-119 | rewriting any accepted file from what was read changes nothing that is read |
| QueueFormat.ParsePrintedPrefix | gofaxsend/qfile.go:82-119 | clean printed parameters are read back whatever text follows |
| QueueFormat.BlankLineIsRejected | gofaxsend/qfile.go:82-87 | a blank line anywhere makes the file unreadable |
| QueueFormat.LineIsTagAndValue | gofaxsend/qfile.go:82-87 | a line is refused iff it has no colon; otherwise tag and value are what surrounds the first colon, less white space only |
| QueueFormat.FirstBadLineIsNamed | gofaxsend/qfile.go:80-93 | the error gives the number of the first line without a colon, or says that a line fills the scanner's buffer |
| QueueFormat.FinalNewlineIsOptional | gofaxsend/qfile.go:80-93 | a text whose last line lacks its newline reads the same |
| QueueFormat.NewlineStatusBreaksFile | gofaxsend/qfile.go:82-114 | setting any tag to a text that ends in a newline makes the printed file unreadable |
| QueueFormat.GetAllAfterSet | gofaxsend/qfile.go:166-182 | after a set, the tag's first value is new, its others and all other tags' values are as before |
| QueueFormat.SetInPlace | gofaxsend/qfile.go:166-176 | a set changes one position or appends, and moves nothing |
| QueueTable.AgreeOnReads | gofaxsend/qmemory.go:38-54 | agreeing stores answer every read alike |
| QueueTable.AddKeepsAgreement | gofaxsend/qmemory.go:60-63 | every add keeps the two stores in agreement |
| QueueTable.SetKeepsAgreement | gofaxsend/qmemory.go:56-58 | a set keeps them in agreement iff the tag occurs at most once |
| MemoryQueue.Qmemory.Set | gofaxsend/qmemory.go:56-58 | afterwards the tag reads as the one new value and every other tag as before; a file that agreed and is set alike still agrees iff the tag was not repeated |
| MemoryQueue.Qmemory.Add | gofaxsend/qmemory.go:60-63 | afterwards the tag reads as its old values and the new one and every other tag as before; a file that agreed and is added to alike still agrees |
| Decimal.AtoiItoa | gofaxsend/qfile.go:156-161 | a printed counter is read back without error iff it fits Go's int, and then unchanged |
| Decimal.AtoiReads | gofaxsend/qfile.go:156-161 | one optional sign and digits are read as their value if it fits, and anything else is an error with value 0 |
| Sequence.GetSeqFor | gofaxlib/seqf.go:32-63 | returns and stores the successor of the number in the file, and what the file holds after each failing call |
| Sequence.FscanLine | gofaxlib/seqf.go:45-58 | every uint64 written is scanned back |
| Sequence.FscanReads | gofaxlib/seqf.go:45-47 | a decimal number is read after any white space and before any text that does not belong to it, or refused if it does not fit; white space alone is the end of the file |
| Sequence.FscanReadsOctal | gofaxlib/seqf.go:45-47 | digits after a leading zero are read as octal |
| Allocator.SoundStep | gofaxlib/seqf.go:41-62 | every step but a failure after the truncation keeps mutual exclusion, the file contents, the chain of numbers and who wrote which |
| Allocator.NumbersCountUp | gofaxlib/seqf.go:45-62 | in every interleaving without a failure after the truncation the i-th number in lock order is the file's number plus i plus one, in a uint64 |
| Allocator.NumbersIncrease | gofaxlib/seqf.go:45-62 | in such runs, below 2^64, the numbers are strictly increasing in lock order |
| Allocator.NumbersAreUnique | gofaxlib/seqf.go:41-62 | in such runs no two processes return the same number while at most 2^64 have been issued |
| Allocator.FreeLockMeansSettled | gofaxlib/seqf.go:51-62 | in such runs, whenever the lock is free the file holds the last number issued |
| Allocator.NamesAreUnique | gofaxlib/sessionlog.go:55-60 | comm ids and receive queue names of different numbers differ, beyond eight digits too |
| Allocator.NamesTellNumber | gofaxlib/sessionlog.go:55-60 | a comm id is the number in at least eight digits, and the receive queue name has the same digits |
| Allocator.LostFileStartsOver | gofaxlib/seqf.go:51-60 | after any run whatsoever, a failure between emptying and writing leaves an empty unlocked file, and the next process alone returns 1 |
| Allocator.RepeatsExactlyAfterLateLoss | gofaxlib/seqf.go:41-62 | for every run with failures anywhere, below 2^64: at some point of it a number can be returned twice iff some process failed between emptying and writing after a first number was issued |
| Modems.Manager.FindDevice | gofaxd/manager.go:55-63 | takes the ready modem of lowest index and nothing else; fails iff none is ready |
| Modems.Manager.SetAllDown | gofaxd/manager.go:47-53 | every modem ends down |
| Modems.NewManager | gofaxd/manager.go:29-45 | yields a manager iff every modem can be created, with distinct ready modems named in order; otherwise exactly the modems before the first failure were made, and all of them are down |
| Pool.AtomicClaimsAreExclusive | gofaxd/manager.go:55-63 | with atomic claims and no message to a held modem, every run keeps each modem with one handler at most |
| Pool.ReadyAndHeldAreConserved | gofaxd/server.go:138-148 | with atomic claims and no messages, ready plus held modems never change in number |
| Pool.SerialClaimsAreDistinct | gofaxd/manager.go:55-63 | with the two steps of the code, every run without overlap and without messages to held modems keeps each modem with one handler at most |
| Pool.SerialClaimsConserve | gofaxd/manager.go:55-63 | in such runs without messages ready plus held modems never change in number |
| Pool.SplitSharesExactlyOnOverlap | gofaxd/manager.go:55-63 | for every run of the code's own claims without messages to held modems: at some point of it handlers past the test can go on to share a modem iff one call found a modem ready that another was about to take |
| Pool.SplitClaimsCollide | gofaxd/manager.go:57-58 | the overlap happens: from every state with a ready modem two new calls can both hold the first ready one |
| Pool.TurnedAway | gofaxd/manager.go:55-63 | a call that finds no modem ready is refused and changes nothing else |
| Pool.MessageBreaksAtomicClaims | gofaxd/device.go:104-117 | a ready message to a held modem lets the next call hold it too |
| Dialstring.LastOverrideWins | gofaxsend/transmission.go:144-154 | a variable has the value of its last successful override, or its default |
| Dialstring.WriteSeparated | gofaxsend/transmission.go:161-174 | a separator written whenever the buffer is non-empty joins the parts |
| Dialstring.Assemble | gofaxsend/transmission.go:157-176 | the imperative assembly for any iteration order |
| Dialstring.DialstringRoundTrip | gofaxsend/transmission.go:157-176 | for every iteration order, reading the braces, the single quotes and the sofia/gateway routes gives back the variables and, route by route, the gateway in its place and the number |
| Dialstring.DialstringDetermines | gofaxsend/transmission.go:157-176 | equal dialstrings have equal variables, gateways in order, and numbers |
| Xferlog.DurationRoundTrip | gofaxlib/xferfaxlog.go:100-108 | a printed duration reads back as its whole seconds, minutes and seconds in two digits and below 60 |
| Xferlog.DurationIsSound | gofaxlib/xferfaxlog.go:54-63 | on a call that became active and hung up, the logged duration is not negative |
| Xferlog.ClassCountsSteps | gofaxlib/xferfaxlog.go:115-127 | the rate class is the number of full 2400 baud steps below the rate, capped at five |
| Xferlog.ParamsDecode | gofaxlib/xferfaxlog.go:113-135 | rate class and ECM flag can be read back from the code |
| Xferlog.ParamsAreMonotone | gofaxlib/xferfaxlog.go:113-135 | the code is monotone in the rate and tells the rate class |
| Xferlog.TransmissionReadsBack | gofaxlib/xferfaxlog.go:71-75 | with no tab in its inputs, a transmission line splits into nineteen fields with every value in its place: texts, quoted texts, numbers and durations |
| Xferlog.ReceptionReadsBack | gofaxlib/xferfaxlog.go:77-82 | the same for a reception line, the caller's name and number quoted twice |

## Left out

- FreeSWITCH socket traffic, mod_db, `tiffcp`, DynamicConfig and faxrcvd subprocesses: foreign calls; their outcomes are inputs.
- The checks at the start of `start` and the failed-hangup-cause list: any initial error, with either retry flag, is allowed.
- Syslog and session logs, configuration loading, command-line mains: no state property.
- UTF-8: text is a sequence of characters, and the scanner limit and truncation count characters.
- The Go memory model: reads and writes of the shared result interleave, but do not tear; `AddEvent` is one step.
- Resolutions, image size and longest bad row run of a page result: copied from headers and only logged.
- Sequence.Fscan: rejects numbers with underscores or the prefixes 0x, 0o and 0b, which `fmt.Fscan` would read; GetSeqFor writes none of them.
- Xferlog.FormatDuration: takes non-negative durations and divides exactly, where the code goes through a float64.
- Retries.HistoryCounts: tries whose texts contain newlines, outer white space or overlong lines, whose script fails, or whose deciding rewrite stops part of the way, are not part of a history; History.ReadableUnlessScriptFails and Sending.FileAfter say what the file holds then.
- Sending.FileAfter: a rewrite fails between two lines, not within one.
- Allocator.Next: a failed write of the number leaves nothing in the file, and no process is killed between locking and scanning or between writing and returning.
- QueueTable.GetAll: values are not aliased, where `Qmemory.GetAll` returns the stored slice itself.
- FIFO message prefixes, faxq status messages and file permissions: settled by reading one branch.
- The branches of the inbound handler on `device != nil`: the variable is shadowed and they never run.
