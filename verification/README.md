# Verification of unwedge

unwedge is a daemon that owns one piece of hardware: it keeps its serial console, lends it to one
client at a time, drives its bootloader, copies files to it and serves it images. This project models
the parts of the daemon whose correctness is not visible in any one function and proves what they
promise, for every input and every interleaving.

Run `dafny verify dfyconfig.toml` in this directory.

## How it is organised

**Serial console** (`internal/serialconsole`).
`Ring.dfy` is the scrollback ring as an array with wrap-around indices. `ConsoleState.dfy` is the console
as a state machine over values, one event per critical section or channel receive, in any order, with the
whole published stream and every subscription ever made kept for stating properties; `Console.dfy` is
the console object, each method shown to take one event of that machine. `Matching.dfy` says what is assumed
of a regular expression, `Scanner.dfy` has the two bounded searches (the waiter's incremental scanner and
the bootloader driver's trimmed accumulator) and shows each equal to rescanning everything.
`WaitForPattern.dfy` interleaves the waiter's actions with anything that may happen to the console: arming,
subscribing, receiving, reading the error, leaving and measuring stay separate steps, so the gaps between
them are there. `WaitLoop.dfy` is the pair of loops that performs those steps, `WaitEnds.dfy` shows that a wait whose
context is done ends, and `WaitScrollback.dfy` says when a wait that asks for scrollback may be satisfied by old output.

**Hardware lock** (`internal/session`, `internal/server/session.go`).
`SessionState.dfy` is the lock manager and the world around it: calls in flight, parked waiters, a clock.
`Session.dfy` is the manager object, `Service.dfy` the interceptors, the session calls and the loop of a
blocking acquire. `SessionTenure.dfy` says how long a session lasts, from the events alone, and `AcquireProgress.dfy`
what each turn of an acquire does and that it gets on. Closing a channel twice is counted rather than forbidden, so that it can be shown never
to happen.

**Classic scp** (`internal/sshexec/scp.go`).
`Digits.dfy` and `ScpRecord.dfy` are number formats, the file record and base names; `Scp.dfy` has the two ends
as processes fed one byte at a time and the client's methods shown equal to them; `ScpOutcome.dfy` has every way a
download can end; `ScpPair.dfy` connects the two ends through bounded buffers; `ShellQuote.dfy` reads quoted words back as the Shell Command Language of
POSIX.1-2017 prescribes (sections 2.2.1 and 2.2.2).

**Images** (`internal/tftp`, `internal/config`, `internal/server/server.go`).
`ImageNames.dfy` has names, instance prefixes and request resolution; `ImageStore.dfy` the operations on a shared
directory against a private map; `Store.dfy` the store object, with temporary file, chunked copy and rename, and
`Crc32.dfy` its checksum; `Uploads.dfy` interleaves the system calls of any number of uploads; `NetbootRequest.dfy` is
what the server makes of a netboot request.

**Bootloader** (`internal/uboot`).
`UBootText.dfy` is the cleaning of a command's output, `UBootExpect.dfy` the accumulator that waits for a pattern and
`UBootExchange.dfy` one line on the console machine: subscribe, write, wait. `UBootScript.dfy` is the netboot script
and when its lines pass, `UBootDialogue.dfy` the script run on one console, by position in its output, and
`NetbootLines.dfy` the same flow with every line and every error spelled out. `Autoboot.dfy` is the catching of
autoboot, by the console's own pattern waiter, `AutobootEnds.dfy` every way it can end; `UBoot.dfy` is the driver object.
`MissedMarkers.dfy` says what the check of a command's output looks at, `CleanBoot.dfy` what a boot says about the
output as a whole, `Overlooked.dfy` how that can mislead, and `SlowWait.dfy` how a wait ends without a match, and what
one that lags behind reports.

## Where the code does not do what its comments say

- *Truncation flag.* The ring's flag is documented as true once a byte has been evicted. It is also set when a
  single write of exactly the capacity lands with nothing stored before it. `Scrollback.FlagWrongExactly` says exactly when it
  is wrong; `Scrollback.FlagWrongExample` is an instance.
- *Missed output after a detach.* The replay on resubscribing is said to keep a pattern from being missed. It can
  be: `PatternWait.GapLosesMatch` is a run, for any capacities. `PatternWait.RetryReachesArmExactly` says exactly when a retry replays
  everything published since arming, and `PatternWait.NoMatchIsLost` that under those conditions nothing is lost.
- *An old prompt.* The wait after an interrupt key considers 256 bytes of scrollback, which may hold a prompt from
  before the key and before the autoboot line. `Autoboot.OnlyNewPromptsExactly` says exactly when that cannot
  mislead, `UBoot.CaughtByStalePrompt` is an instance, without a power cycle, in which it does. With the power
  controller that the daemon configures, a power cycle first clears the scrollback (`cmd/unwedged/main.go`, line 100),
  and then the prompt was printed after that: `Autoboot.OnlyPromptsSinceReset`.
- *Error markers.* A command's check looks at what was heard until the prompt was first seen, and of that at the part
  still kept. `MissedMarkers.MissedExactly` says exactly when a marker among everything the command prints goes
  unnoticed, `UBootDialogue.PassedInOutput` the same by position in the console's output, and
  `CleanBoot.BootedByOutput` exactly when the kernel is booted. `Overlooked.BootedUnnoticed` is an instance in which a
  marker is trimmed away, `Overlooked.BootedLate` one in which a late prompt lets it fall into the wait of the next
  command.
- *A closed console.* The error that is said to mean that the console has been closed is also what a command gets
  whose wait was detached for slowness: `SlowWait.TooSlowReadsClosed`.
- *Existing images.* A save that may not overwrite can replace an image that another save has put there since it looked.
  `Uploads.BothSavedExactly` says exactly when two such saves of one name both succeed, `Uploads.UploadLost` is an
  instance, and `Uploads.AtomicExactly` shows that in every other case saves are as good as done one at a time.
- *One session at a time.* Finishing a session while it has calls in flight lets the next holder's calls overlap
  them. `SessionState.ExclusionExactly` shows that this is the only way; `SessionState.MidCallReachable` and
  `SessionState.MidCallOverlaps` show that it happens.
- *Separate namespaces.* Instance names may end in a dash, and then two namespaces can share a file.
  `ImageNames.ShareExactly` says exactly which, `ImageStore.AloneExactly` that all others are independent, and
  `ImageStore.NeighboursInterfere` shows the interference, both ways.
- *Names with trailing white space* can be uploaded but not fetched: `ImageNames.TftpFindsUpload`.
- *File names ending in a carriage return or line feed* do not survive the record: `ScpRecord.RoundTripExactly`.

## Model

| member | source | states |
|---|---|---|
| Scrollback.Ring.Write | internal/serialconsole/ring.go:21-48 | after a write the contents in order are the last capacity bytes of what was there followed by the new bytes, the total grows by their number, and the flag and counters still describe the stream since the last reset |
| Scrollback.Ring.Append | internal/serialconsole/ring.go:32-47 | a short write, with both wrap-arounds, appends to the unrolled contents and drops exactly what no longer fits |
| Scrollback.Ring.Overwrite | internal/serialconsole/ring.go:24-31 | a write as long as the ring leaves exactly its own tail, in order |
| Scrollback.Ring.Reset | internal/serialconsole/ring.go:53-58 | a reset starts an empty stream with cleared counters and flag |
| Scrollback.Ring.Snapshot | internal/serialconsole/ring.go:64-78 | a snapshot is exactly the newest maxBytes bytes in order, everything for maxBytes of zero or less, and says truncated exactly when the flag is set or it was cut |
| Scrollback.SpliceAppends | internal/serialconsole/ring.go:33-47 | the index arithmetic of a write is right: unrolling the ring after it gives the last capacity bytes of the old contents followed by the new |
| Scrollback.FlagWrongExactly | internal/serialconsole/ring.go:21-48 | the truncation flag is never wrongly clear, and is wrongly set exactly when the stream just fills the ring and one write alone did so |
| Scrollback.FlagWrongExample | internal/serialconsole/ring.go:24-31 | an instance of the wrongly set flag |
| ConsoleState.RunInv | internal/serialconsole/console.go:77-236 | in every state reached by any interleaving of publish, close, subscribe, unsubscribe, receive and reset, every subscription has been sent its replay and then every chunk since without a gap, and registration, closed flags and channels agree |
| ConsoleState.ContiguousSuffix | internal/serialconsole/console.go:77-96 | what a subscriber has consumed and what is queued for it are one contiguous stretch of the published stream beginning with its replay: up to the end of the stream while it is registered, to a chunk boundary once it is not |
| ConsoleState.EverySubscriberGapless | internal/serialconsole/console.go:197-221 | the same at the end of every run from a new console |
| ConsoleState.ConsumedStretch | internal/serialconsole/console.go:197-221 | what a subscriber has received is the stretch of the stream that starts where its subscription does |
| ConsoleState.SlownessIsPrivate | internal/serialconsole/console.go:86-95 | two runs that differ only in what other subscribers receive, lag behind, or close give this subscriber the same replay, chunks and end |
| ConsoleState.ChannelDiscipline | internal/serialconsole/console.go:98-117 | in every run no channel is closed twice or sent on after its close; closed, a recorded error and the closed done channel coincide and leave no subscriber registered |
| ConsoleState.DetachedIsFinal | internal/serialconsole/console.go:81-95 | once detached or closed, a subscription is sent nothing more and is never registered again |
| ConsoleState.PublishExactly | internal/serialconsole/console.go:77-96 | for every subscription ever made: a registered one with fewer chunks pending than the queue holds is sent exactly the chunk and stays open and registered; one with a full queue is sent nothing, closed and unregistered; nobody else is touched |
| ConsoleState.CloseExactly | internal/serialconsole/console.go:98-117 | closing the console closes and unregisters every registered reader, whatever is pending for it, and leaves what was sent |
| ConsoleState.FirstCloseWins | internal/serialconsole/console.go:98-117 | over every run the console is closed once somebody has closed it, and its error is that of the first, end of file read as closed |
| ConsoleState.SubscribeExactly | internal/serialconsole/console.go:200-221 | a new subscription is given the newest bytes of the scrollback, as many as asked for, in one chunk, or nothing; it is registered exactly if the console is open, and nobody else is touched |
| ConsoleState.UnsubscribeExactly | internal/serialconsole/console.go:228-236 | closing a subscription closes its channel and unregisters it exactly if it is registered, and touches nobody else |
| ConsoleState.SnapshotIsTail | internal/serialconsole/console.go:157-161 | scrollback and every snapshot of it are a tail of everything published |
| SerialConsole.Console.Publish | internal/serialconsole/console.go:77-96 | publishing writes the ring, sends exactly the chunk to every registered reader whose queue is shorter than its capacity, and closes and unregisters those whose queue is full, said by lengths of queues: one publish event of the machine |
| SerialConsole.Console.OfferAll | internal/serialconsole/console.go:81-95 | the loop over subscribers leaves every channel as one non-blocking send or one close would, whatever the iteration order, and deletes exactly the detached ones while ranging; which those are, ConsoleState.PublishExactly says by the lengths of their queues |
| SerialConsole.Console.CloseWithErr | internal/serialconsole/console.go:98-117 | closing ends every subscription once, records the error with end of file replaced, and is a no-op the second time |
| SerialConsole.Console.Close | internal/serialconsole/console.go:120-132 | an explicit close leaves the console closed once, with the error of whichever came first, the read loop between its two critical sections or itself, and returns what closing the transport returned |
| SerialConsole.Console.Subscribe | internal/serialconsole/console.go:200-221 | subscribing queues the replay first and registers in the same critical section, or hands out a closed channel when the console is closed: one subscribe event |
| SerialConsole.Console.Unsubscribe | internal/serialconsole/console.go:228-236 | closing a subscription closes its channel and unregisters it only if it is still registered: one unsubscribe event |
| SerialConsole.Console.Receive | internal/serialconsole/console.go:223-225 | a receive takes the oldest queued chunk, or reports the end once the channel is closed and empty |
| SerialConsole.Console.Reset | internal/serialconsole/console.go:168-172 | a reset empties the scrollback and touches no subscriber |
| SerialConsole.Console.Snapshot | internal/serialconsole/console.go:157-161 | the ring object returns the machine's snapshot |
| SerialConsole.Console.TotalWritten | internal/serialconsole/console.go:184-188 | the counter is the number of bytes published since the last reset |
| Matching.SearchTailOnly | internal/serialconsole/console.go:272-274 | searching only the part in which a new match can begin finds the same leftmost match as searching everything |
| Matching.EndAnchoredIsFresh | internal/uboot/uboot.go:51-53 | patterns anchored at the end of the text, such as the default prompt, meet what the bounded searches need |
| Scanner.ScannerRefinesRescan | internal/serialconsole/console.go:254-291 | over any sequence of feeds the incremental scanner reports at the same feed and with the same leftmost text as rescanning every byte fed, for patterns whose matches are at most the overlap plus one byte long |
| Scanner.FeedsAreBounded | internal/serialconsole/console.go:275-283 | the scanner never holds more than the window plus the longest chunk |
| Scanner.PatternScanner.FeedChunk | internal/serialconsole/console.go:260-263 | the scanner object takes exactly the specified feed |
| Scanner.PatternScanner.Scan | internal/serialconsole/console.go:266-285 | its search, trimming and index correction are those of the specification |
| Scanner.TrimRefinesRescan | internal/uboot/uboot.go:176-195 | matching the accumulator that is trimmed to half a window succeeds exactly when matching everything received since the subscription does |
| PatternWait.RunKeeps | internal/serialconsole/console.go:304-360 | the waiter's invariant holds in every state of every interleaving with the console, resets, detaches and cancellation included |
| PatternWait.OnlyPostArmBytes | internal/serialconsole/console.go:305-335 | on any retry, however stale or negative the measured gap and whatever resets came in between, the scanner is fed one stretch of the stream and no byte published before arming |
| PatternWait.OutcomesAreHonest | internal/serialconsole/console.go:316-326 | a reported match is the leftmost in what was fed; the closed error is returned only when the console really is closed and the context error only when the context is done |
| PatternWait.RetryBeginsExactly | internal/serialconsole/console.go:330-335 | a (re)subscription begins exactly the smaller of what was asked for and what is buffered before the end of the stream, and not before the end at all for a request of zero or less |
| PatternWait.RetryReachesArmExactly | internal/serialconsole/console.go:327-335 | a retry replays everything published since arming exactly when nothing was published since then, or nothing between measuring the gap and subscribing, no reset upset the count or dropped any of it, and it fits the ring and the window |
| PatternWait.GapLosesMatch | internal/serialconsole/console.go:327-335 | for every capacity of ring and queue, a run in which what is published in that gap pushes the beginning of a match out of the replay: the pattern has occurred, the console is open, and the waiter waits on |
| PatternWait.NoMatchIsLost | internal/serialconsole/console.go:304-360 | however often the waiter was detached before, if since arming there was no reset, the output fits the ring and the window and nothing was published between measuring a gap and resubscribing, then once the pattern has occurred anywhere since the first subscribe, the waiter reports a match within a bounded number of its own actions, whatever else is published and whatever other subscribers do in between under the same conditions |
| PatternWait.OccurrenceIsReported | internal/serialconsole/console.go:304-360 | the same from any state in which an occurrence is out there: each of the waiter's actions brings the report nearer, and each byte published uses up more room than the delay it can cause |
| WaitEnds.DrainExactly | internal/serialconsole/console.go:344-360 | what a draining waiter does next, in every case: with its context done it gives up if its queue is empty and open, and whenever its select prefers the context; otherwise it takes the oldest chunk, or notices the end of its feed, or waits |
| WaitEnds.CancelledInThree | internal/serialconsole/console.go:344-360 | a waiter that gives up so is finished with the context error by its third action, its subscription closed |
| WaitEnds.WaitEnds | internal/serialconsole/console.go:304-360 | in any state it can reach, once its context is done or the console is closed, a wait is finished after a stated bound of its own actions plus one for each chunk published meanwhile; unless a match occurs in what it was fed it reports the context if that was done, and otherwise the context or a console that is closed |
| WaitEnds.FoundIsReported | internal/serialconsole/console.go:315-320 | a match once found is what the wait reports, whatever happens before it has returned |
| WaitEnds.CancelledWaitReturns | internal/serialconsole/console.go:304-360 | the same from the start of the wait: over any turns with the context done in one of them, it has finished after a stated number of further turns |
| WaitLoop.Wait.WaitForPattern | internal/serialconsole/console.go:304-337 | the retry loop, over any list of turns of what others do before each of its actions, ends in exactly the state the machine reaches by playing those turns, has used exactly the turns that takes, and returns that outcome and what the scanner holds |
| WaitLoop.Wait.DrainInto | internal/serialconsole/console.go:344-360 | the drain loop leaves the machine on the course it was on, with a match, a cancelled context or the end of the feed, or with no turns left; that the course ends once the context is done, WaitEnds.WaitEnds says |
| WaitLoop.Wait.Leave | internal/serialconsole/console.go:315-326 | the decision after draining keeps to that course: a match first, then the context, then the closed console, else another round |
| WaitLoop.Wait.Measure | internal/serialconsole/console.go:330-335 | the next replay is the number of bytes written since arming, capped at the window, the scanner is restarted, and exactly one step has been taken |
| WaitLoop.PlayIsRun | internal/serialconsole/console.go:304-360 | playing a list of turns takes exactly their moves in order, as a run of the machine, and stops early only when the wait has finished |
| WaitLoop.PlayIsHonest | internal/serialconsole/console.go:304-360 | whatever others do, the wait is fed one stretch of the stream, on a retry only bytes published after arming; it reports the leftmost match, and each failure for its one reason |
| WaitScrollback.WaitNotStale | internal/serialconsole/console.go:304-313 | a wait reports no match that begins before some earlier moment if no position in the scrollback at that moment can begin a match |
| WaitScrollback.FreshExactly | internal/serialconsole/console.go:304-313 | whatever happens, a wait reports no match that begins before it, exactly when no position in the scrollback it asked for can begin a match with any continuation |
| SessionState.RunInv | internal/session/session.go:89-242 | the lock's invariant holds in every state of every history of calls, finishes, expiries and waiters; the clock never goes back and ids are never reused |
| SessionState.CounterIsExact | internal/session/session.go:99-113 | in every reachable state the call counter is the number of calls in flight that carry the current holder's id, and zero when free, even after finishes mid-call and stale call ends |
| SessionState.ExclusionExactly | internal/session/session.go:132-221 | at all times every operational call in flight belongs to the current holder, exactly when no session is ever finished with calls in flight; expiry alone never breaks it |
| SessionState.StepExclusive | internal/session/session.go:173-183 | one event breaks exclusion exactly when it finishes a session that has calls in flight |
| SessionState.MidCallReachable | internal/session/session.go:173-183 | such a finish is reachable from a fresh manager |
| SessionState.MidCallOverlaps | internal/session/session.go:173-183 | after such a finish the next holder's call runs beside the old session's |
| SessionState.EndsExactly | internal/session/session.go:85-96 | a session ends exactly when its own id is finished, or when an event that looks for idleness finds it without calls and strictly past its last activity plus the time to live |
| SessionState.AttentiveKeepsLock | internal/session/session.go:187-221 | a holder whose own refreshes, call starts and call ends are never more than the time to live apart while it is idle never loses the lock, whatever others do |
| SessionState.OverdueIsGone | internal/session/session.go:132-229 | after that instant any acquire, query, refresh or operational call finds the idle holder gone |
| SessionTenure.AcquiredNow | internal/session/session.go:140-151 | an attempt at a free or overdue lock gets it, and the reply names the session and its owner and says it began now and expires a whole time to live from now |
| SessionTenure.BusyWith | internal/session/session.go:152-156 | an attempt at a held lock changes nothing and is told the owner and the expiry of the holder |
| SessionTenure.AcquiredLasts | internal/session/session.go:85-221 | from the attempt that got the lock, over every run, a session is held exactly until it is finished or somebody looks strictly more than a time to live after it was got or after the latest own event of its holder, by the clock of the events, with none of its calls in flight |
| SessionTenure.TenureExactly | internal/session/session.go:85-221 | the same from any moment at which it is held |
| SessionTenure.SilentHolder | internal/session/session.go:85-96 | a client that gets the lock and dies keeps it for a time to live: until that has passed whoever looks finds the session, and the first to look afterwards finds it gone |
| SessionState.NoLostWakeup | internal/session/session.go:153-168 | every parked waiter waits on the current session's channel or on one that is already closed, and is awake when the lock is free |
| SessionState.TurnsAlternate | internal/session/session.go:99-113 | acquisitions and releases alternate in every history, and each session's channel is closed exactly once, when that session has ended |
| SessionState.AlternatesAt | internal/session/session.go:99-113 | position by position, every release is of the id acquired just before it |
| SessionState.WokenAcquires | internal/session/session.go:160-163 | a woken waiter that finds the lock free gets it |
| Session.Manager.Clear | internal/session/session.go:99-113 | clearing frees the lock, zeroes the counter and closes the session's channel, which has not been closed before |
| Session.Manager.ExpireIfIdle | internal/session/session.go:89-96 | the idle check clears only a holder without calls, strictly after its expiry |
| Session.Manager.TryAcquire | internal/session/session.go:140-155 | one pass of the acquire loop takes a free or overdue lock with a new channel, as a session that begins and was last active now, or leaves everything and reports the holder, its expiry and the channel to wait on |
| Session.Manager.Finish | internal/session/session.go:173-183 | finishing clears only the named session, and succeeds on a free lock |
| Session.Manager.Refresh | internal/session/session.go:187-196 | refreshing succeeds exactly for the holder that is not overdue, and changes nothing but its last activity, to now |
| Session.Manager.CallStart | internal/session/session.go:201-211 | a call start is admitted exactly for the holder that is not overdue, and counted |
| Session.Manager.CallEnd | internal/session/session.go:214-221 | a call end with a stale id changes nothing |
| Session.Manager.GetInfo | internal/session/session.go:224-242 | a query expires an idle holder first and then reports the lock as it stands |
| Service.Server.Begin | internal/server/session.go:100-110 | an operational call runs only if its session id is the live holder's, and is then in flight; exempt calls pass untouched |
| Service.Server.Return | internal/server/session.go:109-109 | the deferred call end takes the call out of flight, whoever holds the lock by then |
| Service.Server.Message | internal/server/session.go:139-147 | each stream message refreshes its own session and no other |
| Service.Server.FinishSession | internal/server/session.go:75-83 | finishing succeeds exactly on a free lock or for the holder's id |
| Service.Server.Ping | internal/server/session.go:86-94 | a ping refreshes the session and then, in a second critical section with anything in between, replies with what it finds; a stale id is refused |
| Service.PingExtends | internal/server/session.go:90-93 | exactly the holder's ping is answered, undisturbed with its own session expiring a whole ttl from now |
| Service.Server.Handle | internal/server/session.go:100-147 | whatever event comes next, the server with its lock object takes the machine's step, so everything proved of runs holds of it |
| Service.Server.Acquire | internal/session/session.go:132-169 | the blocking loop, over any list of turns of what others do before it looks, ends in exactly the state and with exactly the result of the specification |
| Service.AcquireIsFair | internal/session/session.go:132-169 | an acquire that returns is no longer parked; it returns a session only as its holder, under the caller's name and with an id never used before; it reports busy only to a caller that set a limit, after the timer if it waited, and cancelled only after its context ended |
| AcquireProgress.TryExactly | internal/session/session.go:137-156 | a turn that tries the lock: it gets a lock that is free or overdue; of a held one a caller without patience is told the owner and expiry, and any other is parked on the holder's channel, to report those if its time runs out |
| AcquireProgress.LookExactly | internal/session/session.go:158-168 | a turn of a parked waiter, in every case: with an alarm it gives up unless its channel is closed and preferred, it is unparked once its channel is closed, and otherwise stays |
| AcquireProgress.FreedIsTaken | internal/session/session.go:158-168 | a parked waiter that is left alone once the lock is free has it two turns later |
| AcquireProgress.AlarmEnds | internal/session/session.go:137-168 | whatever others do, two turns with an alarm that is preferred end an acquire |
| AcquireProgress.AlarmOnOpenChannel | internal/session/session.go:158-168 | a waiter whose channel is open ends with the first alarm, cancelled or busy |
| ScpRecord.ParseFormat | internal/sshexec/scp.go:210-224 | parsing a printed record gives back permissions and size, and the name without trailing line ends |
| ScpRecord.RoundTripExactly | internal/sshexec/scp.go:44-44 | the round trip is exact precisely for names that do not end in a carriage return or line feed |
| ScpRecord.BaseNameIsLastComponent | internal/sshexec/scp.go:228-237 | the base name is the last slash-separated component, trailing slashes aside, and the default for a path of slashes only |
| Scp.DownloadExactly | internal/sshexec/scp.go:64-115 | for any byte stream a download succeeds exactly when the stream is timestamp records, one file record, exactly the announced number of body bytes and a zero status byte; it then delivers that body and has written three zeros plus one per timestamp |
| Scp.SendsIsStored | internal/sshexec/scp.go:81-109 | everything of that form is stored, with that count of acknowledgements |
| Scp.StoredIsSent | internal/sshexec/scp.go:73-113 | whatever is stored was sent in that form |
| Scp.SCPDownload | internal/sshexec/scp.go:64-115 | the client's control loop ends on every input, with the result and the written bytes of the receiving process |
| Scp.ReceiveFile | internal/sshexec/scp.go:99-109 | body, status byte and final acknowledgement are those of the receiving process, short bodies included |
| Scp.Conn.ReadAck | internal/sshexec/scp.go:193-207 | a status byte of zero is success; one, two, anything else and the end of the stream fail, each in its way |
| Scp.SCPUpload | internal/sshexec/scp.go:28-59 | before the first zero acknowledgement nothing is written; then a line C, the mode asked for in four octal digits (0644 for none), the decimal size, and the last component of the path; after the second the first size bytes of the source and a zero byte, or all of a source that is too short; the third makes it a success, and each failure is named; a negative size sends nothing. It is the run of the sending process |
| Scp.UploadExactly | internal/sshexec/scp.go:28-59 | the same of the sending process, for every stream of acknowledgements |
| ScpRecord.AnnouncedExample | internal/sshexec/scp.go:44-44 | an instance: mode 0755 and size 0 to /bin/t announce "C0755 0 t" |
| ScpRecord.AnnouncedParses | internal/sshexec/scp.go:210-224 | whatever is announced so parses as that size, those bits and that name, but for line ends at its end |
| ScpOutcome.DownloadComes | internal/sshexec/scp.go:64-115 | every input a download can meet is timestamps and then nothing, part of a line, or a line and what follows, and for each of these, by the bytes, the result, whichever failure it is, and everything written |
| ScpOutcome.ParseExactly | internal/sshexec/scp.go:210-224 | a control line parses exactly when, without its line end, it is C, octal digits within 32 bits, a space, a signed decimal within 64 bits, a space and a name, and as what that says |
| ScpPair.UploadMeetsDownload | internal/sshexec/scp.go:28-115 | upload and download connected by buffers of any capacity never deadlock under any schedule, take a bounded number of steps, and end with both successful and the same permission bits, size, name and body received |
| ScpPair.UploadedIsStored | internal/sshexec/scp.go:28-115 | what a successful upload to a path has written is stored by a receiver with the size, the bits asked for, the last component of the path and exactly the first size bytes of the source |
| ScpPair.UploadArrives | internal/sshexec/scp.go:28-115 | the same of the two ends connected by any buffers, under any schedule |
| ScpPair.StepKeeps | internal/sshexec/scp.go:28-115 | every step of either end keeps them in lockstep |
| ScpPair.SomeoneCanMove | internal/sshexec/scp.go:28-115 | until both are done, one end can move |
| ScpPair.ParsedNameIsClean | internal/sshexec/scp.go:210-224 | a name taken from a control line never contains a line feed nor ends in a carriage return |
| ScpPair.NameArrivesExactly | internal/sshexec/scp.go:44-44 | the names that arrive unchanged are exactly those |
| ShellQuote.QuoteRoundTrip | internal/sshexec/scp.go:240-242 | the shell reads a quoted string as exactly one word equal to it, exactly when it holds no NUL |
| ShellQuote.CommandWords | internal/sshexec/scp.go:65-65 | the remote command line is read as scp, its flag, the end of options and the path as one operand, whatever the path holds |
| ImageNames.SanitizeExactly | internal/tftp/imagestore.go:66-72 | exactly the plain file names are accepted, unchanged |
| ImageNames.ShareExactly | internal/config/config.go:210-216 | two distinct valid instance names can share an on-disk file exactly when one is the other plus a single dash |
| ImageNames.RequestFinds | internal/tftp/server.go:40-41 | a request for a plain file with a leading slash resolves to it exactly when the name does not end in white space |
| ImageNames.TftpFindsUpload | internal/server/server.go:269-275 | the name sent to the bootloader for an uploaded image resolves to the file the upload wrote, exactly when the name does not end in white space |
| ImageStore.ExecIsPrivate | internal/tftp/imagestore.go:98-176 | to its own instance every save, delete and list is the operation on a private map |
| ImageStore.ExecLeavesOthers | internal/tftp/imagestore.go:54-60 | to an instance that cannot share files with it, an operation changes nothing |
| ImageStore.RunsAlone | internal/tftp/imagestore.go:54-176 | in any interleaving across instances each gets the results of running alone on a private map, and ends up owning that map |
| ImageStore.NeighboursInterfere | internal/tftp/imagestore.go:54-60 | without that condition each neighbour's upload shows up in the other's list: the longer name's "x" is the shorter's "-x" |
| ImageStore.AloneExactly | internal/config/config.go:210-216 | two distinct valid instances run as if each were alone, in every interleaving, exactly when neither name is the other plus a dash |
| Store.Store.Save | internal/tftp/imagestore.go:98-143 | a bad name is refused, an existing image kept unless it may be replaced, a failed upload leaves everything, and otherwise the view's file holds exactly the upload, whose size and CRC-32 are reported; at every call it makes on the directory but the last, what is there, temporary file aside, is what was there before; and if it succeeds, the last call is the rename of the temporary file, which then holds the complete upload |
| Store.SaveIsExec | internal/tftp/imagestore.go:98-131 | that is the save of the shared directory that the instances' independence is proved of |
| Store.Directory.Perform | internal/tftp/imagestore.go:108-131 | every change of the directory is one create, append, rename or remove, and is on record |
| Store.Store.List | internal/tftp/imagestore.go:146-176 | a listing holds exactly the view's files under their client names, with the size and CRC-32 of each one's content, sorted by name |
| Store.SavedAsListed | internal/tftp/imagestore.go:134-171 | what a save reported of an image is what a listing reports of it, recomputed from the file |
| Crc32.UpdateInPieces | internal/tftp/imagestore.go:121-124 | a checksum fed chunk by chunk is the checksum of the whole |
| Crc32.ChangedByteIsDetected | internal/tftp/imagestore.go:121-124 | contents that differ in a single byte, wherever it is, have different checksums |
| Crc32.ZeroByteChecksum | internal/tftp/imagestore.go:122-122 | a check value of the IEEE polynomial |
| Uploads.AtomicExactly | internal/tftp/imagestore.go:95-143 | with the system calls of any uploads, deletes and listings interleaved, they have the results and leave the files that they would one at a time, each at its rename or failing check, exactly when no upload that may not overwrite is renamed onto a file that has appeared since its check |
| Uploads.ResultIsListed | internal/tftp/imagestore.go:98-143 | every upload that gets done is in that order, with the result it was given |
| Uploads.BothSavedExactly | internal/tftp/imagestore.go:103-131 | two uploads of one new name that may not overwrite are both told they were saved exactly when both get done and at some moment each had passed its check and neither had been renamed |
| Uploads.NoOrderSavesBoth | internal/tftp/imagestore.go:103-107 | no order of doing the two one at a time could have told both so |
| Uploads.UploadLost | internal/tftp/imagestore.go:103-131 | an instance: both are told they were saved, and of the first nothing is left |
| Uploads.WholeUploads | internal/tftp/imagestore.go:95-97 | at every moment of every interleaving, every stored file is one that was there before or exactly one whole upload |
| Uploads.UploadsRunAlone | internal/tftp/imagestore.go:50-60 | in any interleaving of system calls with instances that cannot share files, an instance's uploads, deletes and listings take the course, have the results and leave the files they would by themselves |
| Uploads.UploadsAloneExactly | internal/config/config.go:210-216 | that holds of two distinct valid instances exactly when neither name is the other plus a dash |
| Uploads.UninterruptedIsSave | internal/tftp/imagestore.go:98-143 | an upload whose calls nobody interrupts is the save of the store, with its files and result |
| NetbootRequest.Prepare | internal/server/server.go:232-276 | a prepared request names the image by its name on disk and, if it is to be verified, carries the length and CRC-32 of the stored content; without a store, without the image or with a bad name it is refused, each exactly then |
| NetbootRequest.VerifiesWhatIsServed | internal/server/server.go:252-275 | the file that the bootloader's request resolves to is the one whose checksum is on its command line, unless the name ends in white space |
| Store.Store.Delete | internal/tftp/imagestore.go:238-247 | a delete removes the view's file of that name or reports it missing |
| Store.Store.Namespaced | internal/tftp/imagestore.go:54-60 | a view carries the instance's prefix, none for no instance |
| UBootText.CleanCommandOutput | internal/uboot/uboot.go:372-390 | the loop computes the cleaned output |
| UBootText.CleaningKeepsMarkers | internal/uboot/uboot.go:372-390 | cleaning neither hides nor adds an error marker, in any case of letters, relative to what follows the command's echo |
| UBootText.CleanExactly | internal/uboot/uboot.go:372-390 | the cleaned output is the lines that follow the first echo of the command and the line ends after it, up to the last that is not blank or a prompt |
| UBoot.Orchestrator.SendAndExpect | internal/uboot/uboot.go:168-197 | on the console machine the wait subscribes, then writes the text once, then waits, and closes its subscription; the result is the first match with the accumulated text, or the failed write, the context or the end of the feed |
| UBoot.Orchestrator.Await | internal/uboot/uboot.go:176-195 | the select loop takes chunks, trims and stops as specified, whatever else happens on the console before each select; that it stops once the context is done, SlowWait.CancelledCommandReturns says |
| UBootExchange.HeardIsStretch | internal/uboot/uboot.go:165-169 | what a wait takes is the stretch of the output that begins where it subscribed, before its line was written, with nothing missing at the front or in between |
| UBootExchange.NothingMissed | internal/uboot/uboot.go:165-169 | while it is registered, a wait has taken or has queued everything published since it subscribed |
| UBootExchange.SeenAtLast | internal/uboot/uboot.go:186-189 | a wait succeeds exactly when its last chunk is the first at which rescanning everything it took finds the pattern |
| UBootExchange.SaidIsHeard | internal/uboot/uboot.go:177-189 | on an open console any chunks that end with the first match can be what a wait takes |
| SlowWait.ClosedMeansGone | internal/uboot/uboot.go:179-184 | a wait reports the context only once it is done, and closed only once its subscription is gone |
| SlowWait.CancelledCommandReturns | internal/uboot/uboot.go:177-184 | once its context is done a command's wait has ended after as many turns as chunks are pending or published meanwhile and one more |
| SlowWait.SilentTargetTimesOut | internal/uboot/uboot.go:177-180 | if the context is done in some turn and nothing is printed, the command returns the context error |
| SlowWait.HearCloses | internal/uboot/uboot.go:165-170 | a command whose line could not be written, or whose wait has ended, leaves no subscription behind: it is unregistered and its channel closed |
| SlowWait.TooSlowReadsClosed | internal/uboot/uboot.go:181-184 | whatever the queue's capacity, a burst of one chunk more ends a wait with the closed error though the console is open |
| UBootExpect.ExpectReturnsHeld | internal/uboot/uboot.go:190-193 | what is searched last and returned is as many of the last bytes as the lengths of the chunks alone say |
| UBootExpect.ExpectRefinesRescan | internal/uboot/uboot.go:176-195 | the wait succeeds exactly when rescanning everything received ever finds the pattern, at the same chunk, and returns all of it while it fits the window |
| UBoot.Orchestrator.InterruptBoot | internal/uboot/uboot.go:200-237 | for every power supply and console the result, the events and the console left behind are those of the specification: power cycle if asked, the wait for the autoboot line, then keys, each followed by a wait for the prompt with 256 bytes of scrollback |
| Autoboot.CaughtInOrder | internal/uboot/uboot.go:200-237 | on success, by position in the output: the autoboot line lies in what was published after its wait began and before the first key; between one and eight keys were written, in order; the prompt is seen no more than 256 bytes before the last of them |
| AutobootEnds.CatchExactly | internal/uboot/uboot.go:200-237 | every way it can end: no key without the autoboot line; then keys until one cannot be written, the prompt is seen after one, a wait does not return or the deadline has passed; and it is given up after eight keys and not before |
| Autoboot.OnlyNewPromptsExactly | internal/uboot/uboot.go:220-232 | the prompt reported begins after the first key, whatever happens, exactly when no position in the last 256 bytes of scrollback at that key can begin a match of the prompt pattern |
| Autoboot.OldPromptCatches | internal/uboot/uboot.go:222-229 | whenever those bytes hold an old prompt, the boot can be reported caught by it at the first key |
| Autoboot.StalePrompt | internal/uboot/uboot.go:222-229 | an instance: "=> reset" in the scrollback, the pattern "=>", and a boot reported caught with nothing received after the key |
| UBoot.CaughtByStalePrompt | internal/uboot/uboot.go:200-237 | on it, interrupting the boot without a power cycle succeeds |
| Autoboot.OnlyPromptsSinceReset | cmd/unwedged/main.go:97-100 | when the scrollback is cleared first, as on a power cycle by the daemon's controller, the prompt reported was printed after that |
| UBoot.Orchestrator.RunCommand | internal/uboot/uboot.go:241-256 | a command sends its text and a carriage return and returns the cleaned output |
| UBoot.FirstMentioned | internal/uboot/uboot.go:266-271 | the marker check finds the first marker the output mentions, and none only if there is none |
| UBoot.Orchestrator.RunChecked | internal/uboot/uboot.go:259-273 | a checked command succeeds exactly if it was written, its prompt returned and its output mentions none of its markers, in any case of letters; without the prompt it fails as the wait did |
| UBootScript.PassedIsAnswered | internal/uboot/uboot.go:259-273 | while what arrives until the prompt is seen fits the window, that is, without trimming and cleaning: the prompt is seen, and nothing received by then after the echo mentions a marker |
| UBootScript.PassedIsKept | internal/uboot/uboot.go:259-273 | however long the answer, it is: the prompt is seen, and nothing in the kept tail, after its echo, mentions a marker |
| MissedMarkers.PassedByPart | internal/uboot/uboot.go:186-193 | a command whose prompt is first seen at some chunk passes exactly when no marker lies in the part looked at, which begins where the lengths of the chunks and the echo found there say and ends with that chunk |
| MissedMarkers.MissedExactly | internal/uboot/uboot.go:186-193 | with all that a command prints as its answer, after the prompt was first seen too, an error marker in it goes unnoticed exactly when one lies after the echo and none in the part looked at |
| UBootDialogue.HeardAt | internal/uboot/uboot.go:165-175 | what the wait of each line of a script hears is a stretch of the one console's output, begun before that line is written |
| UBootDialogue.WaitsInOrder | internal/uboot/uboot.go:315-332 | the stretches are disjoint and in the order of the lines |
| UBootDialogue.LeftUnread | internal/uboot/uboot.go:169-170 | a byte that a wait leaves unread goes to the next wait if it is published after that has subscribed, and to no wait if before |
| UBootDialogue.PassedInOutput | internal/uboot/uboot.go:259-273 | a line passes exactly when its prompt is seen and no marker lies in the part looked at, so that of everything printed up to any later moment a marker goes unnoticed exactly when one lies there and none in that part |
| Overlooked.BootedUnnoticed | internal/uboot/uboot.go:190-193 | an instance, in chunks no longer than the read loop publishes: "dhcp" answers "failed" and then a window of output, and the kernel is booted |
| Overlooked.BootedLate | internal/uboot/uboot.go:168-197 | an instance: a prompt ends the wait of "dhcp" early, its "TIMEOUT" falls into the wait of the next command, and the kernel is booted |
| UBoot.Orchestrator.Netboot | internal/uboot/uboot.go:288-368 | on one console, whatever it prints and whatever others do, after autoboot was caught if a power cycle was asked for, what is written is the first lines of the flow, each spelled out, and each of them exactly if it could be written and every earlier line was answered by the prompt and by no error, each error spelled out; each line is run where the one before has left the console; success means the whole script passed; a missing image or server address sends nothing |
| NetbootLines.ScriptFollowsFlow | internal/uboot/uboot.go:314-361 | the lines written are, in order, the spelled-out commands up to the last that is due: the serverip line with the request's address whenever it has one, the tftpboot line with the slash and the image, the crc32 line with a word that is the length in hexadecimal and eight digits that are the checksum, the boot line with the core mask, panic=0 and the trimmed arguments |
| NetbootLines.BootsExactly | internal/uboot/uboot.go:314-361 | the boot line is written exactly when it can be and every earlier answer has the prompt and, after the echo of its line, mentions none of the errors spelled out line by line |
| UBoot.PreludeExactly | internal/uboot/uboot.go:308-312 | without a power cycle nothing precedes the script; one that cannot be made ends the flow with nothing asked of the target; otherwise it comes first |
| UBootScript.BootedExactly | internal/uboot/uboot.go:315-368 | the boot line is sent exactly when every earlier command passed and it could be written |
| CleanBoot.BootedByOutput | internal/uboot/uboot.go:315-368 | said of the console's output alone: the boot line is sent exactly when it could be written, every earlier prompt was seen and no error marker lies in the part of the output that its check looked at |
| CleanBoot.BootedOnlyAfterCleanAnswers | internal/uboot/uboot.go:315-368 | while each command is heard out, its output fitting the window and all read before the next line begins to listen, the boot line is sent exactly when it could be written, every earlier prompt was seen, and no error marker is in what was printed from that command's subscription to the next, after its echo |
| UBootScript.ChecksumJustBeforeBoot | internal/uboot/uboot.go:327-341 | when requested the checksum command is strictly between the fetch and the boot line, and otherwise absent |
| UBootScript.CrcWordIsExact | internal/uboot/uboot.go:338-338 | the checksum word of that command is eight digits and denotes the expected checksum |

## Left out

- Regular expressions: abstract. A matcher may look at everything from a position to the end of the text, so begin-of-text anchors and word boundaries are excluded; matches longer than 64 KiB + 1 (waiter) or 512 KiB + 1 bytes (bootloader driver) are outside the searches' guarantee, as in the code.
- PatternWait.NoMatchIsLost: for patterns whose match depends on the matched bytes alone; an end-anchored pattern may match at one chunk boundary and not after replay.
- WaitLoop.Wait.WaitForPattern: others act between the waiter's critical sections and receives, as a given list of turns, on the console's state machine, which the console object's methods are shown to follow; the Go scheduler and timers are whatever those turns say.
- Service.Server.Acquire: likewise; the random id is given with each turn, and a turn that offers an empty or repeated id is skipped, so ids are assumed fresh.
- Clock readings: one per critical section (an acquire reads the clock three times in the code); the clock does not go backwards.
- A manager without session locking (no session manager configured) is not modelled.
- SerialConsole.Console.Close: of the transport only the result of closing it is there, and writes to the target are not modelled; the reader goroutine is a sequence of publish events and at most one close.
- The queue capacity of a subscription is at least one; a capacity of zero, which no caller sets, would block on the replay.
- 64-bit overflow of the ring's byte counter, after 2^63 bytes.
- Scp.SCPDownload: for a sink that reads its body to the end; a sink that fails or stops early, local write failures and the session's exit status are not modelled.
- Scp.ReceiveFile: likewise, for a sink that reads the whole body.
- Scp.SCPUpload: the source reader either has enough bytes or ends early; other read errors look the same.
- ScpPair.UploadMeetsDownload: the source has at least the announced bytes and the base name is one that can be sent; other names are covered by ScpPair.NameArrivesExactly.
- Texts of error messages, progress events, logging, gRPC, TLS, MCP and command-line wiring.
- SSH transport, serial device, power controller, DHCP and TFTP protocols: parameters or absent.
- SHA-256 and modification times of images; Prune.
- Store.Store.Save: the object's save runs by itself; other calls are interleaved with those of saves in Uploads.AtomicExactly. The temporary name is fresh and is not the target (only the raw view could be asked to save a name beginning like a temporary file).
- Uploads.AtomicExactly: for named instances and temporary names that are never used twice; the look for the temporary file after the rename, which then finds none, and the one before a removal are not steps of their own, nor are the calls within one listing.
- Store.Store.List: the modification time of each entry is not modelled.
- The raw store's listing hides names that look like uploads in progress; ImageStore.ExecIsPrivate is stated for named instances, where no such name exists.
- UBootText.CleaningKeepsMarkers: letter case is that of ASCII letters.
- WaitScrollback.FreshExactly: for patterns that do not match the empty text and a console still open; the direction that protects, WaitScrollback.WaitNotStale, holds without either.
- Autoboot.OnlyNewPromptsExactly: under the same two conditions, and Autoboot.TriesFresh without.
- UBoot.Orchestrator.Netboot: how the bootloader forms its TFTP request from the path is its own business; deadlines are ends of the context at any turn; configuration defaults are taken as applied.
- UBoot.Orchestrator.SendAndExpect: a write is one moment and changes nothing on the console's output side; the progress events are left out.
