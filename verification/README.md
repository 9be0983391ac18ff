# Verified model of the guest agent's servers

This project models, in Dafny, the stateful parts of the guest agent and proves
properties of them that hold for every input, every run or every interleaving:

- the vendored SSH server: the life cycle of `Serve`, `HandleConn`, `Close` and
  `Shutdown` (`lifecycle.dfy`, `stopping.dfy`, `server.dfy`), the session request loop
  (`session.dfy`, `session_object.dfy`), the newline rewrite of `Session.Write` (`newline.dfy`), the
  payload parsers (`payload.dfy`), the connection deadline (`deadline.dfy`) and reverse
  port forwarding (`forward.dfy`);
- freezing and thawing filesystems, the lock flag and the RPC gate (`freeze.dfy`), the
  mount-table reader (`mounts.dfy`), and what a freeze of a table covers (`coverage.dfy`);
- file transfer between host and guest (`transfer.dfy`) and the version codec
  (`version.dfy`).

Verify everything with `dafny verify dfyconfig.toml`.

## How the model is built

Code that runs concurrently is a state machine: a `State`, a `Step` or `Event` for each
critical section (or each call that can block), a guard and a function that applies the
step. A run is a sequence of states and steps, and the theorems quantify over all runs.
The objects whose fields the source updates in place are classes with those fields.
`Session`, `ServerConn` and `ForwardedTCPHandler` carry a ghost history or run; `Valid()`
ties the fields to it, and the methods state their results in terms of it. `Server`,
`Freeze.Server` and `Store` are proved against functions of their old state.

Callbacks, clocks, kernel answers, network errors and user choices are parameters or
fields of the steps, so every outcome is covered. Panics are modelled as outcomes.

The statements say exactly when the code meets its documentation. Where it does not, a
lemma gives the run that shows it and another the exact condition:

- `Serve` is documented to return `ErrServerClosed` after `Close` or `Shutdown`.
  `ServeReturnsErrServerClosedIff` gives the exact condition and
  `ReuseMasksErrServerClosed` a run in which a reused server returns the Accept error.
- `Shutdown` is documented to wait for connections to close, and `Close` to close all of
  them. Of the connections alive at the call each reaches exactly those already tracked
  (`ShutdownAwaitsIffTracked`, `CloseReachesIffTracked`): from every state both can leave
  a connection that is still in its handshake (`HandshakeOutlivesShutdown`,
  `HandshakeOutlivesClose`).
- A refused subsystem request leaves its name behind (`RefusedSubsystemNameSurvives`).
  `HandlerSees` says what `Subsystem()` reports in every case.
- A forwarding listener can be lost, open for good, in two ways. Forwarding an address
  whose entry is still in the map loses the earlier listener if it is open and nobody is
  about to close it (`SamePortZeroLeaks`), and otherwise the later one, whose entry the
  earlier one's goroutine deletes (`CancelThenForwardAgainLeaks`). And any Accept error,
  a temporary one too, ends the accepting goroutine, which deletes the entry without
  closing the listener (`AcceptErrorLeaks`). A listener can be lost if and only if some
  step does one of the two (`LeakIffOverwriteOrAbandon`).
- The lock is meant to hold handlers up, but the gate looks at it once: a handler let in
  before `lock()` goes on under it, and only such a one does (`RunsUnderLockIff`).
- Reads and Writes compute their deadlines and install them later. One at a time they
  never move the deadline earlier (`DeadlineNeverMovesEarlier`); when they overlap an
  installation does exactly if it has been overtaken (`MovesEarlierIffOvertaken`).
- The count that `Write` returns after a partial channel write is the number of input
  bytes that got through exactly when everything did or no LF counted needed a CR
  (`CountIsExactIff`, `CountCanOverstate`).
- A thaw that meets a freeze still under way can unlock the agent while a filesystem is
  frozen. `Harmful` names the steps that make it possible; without one it cannot happen
  (`UnlockedMeansNothingFrozen`), with one it always can
  (`HarmfulCanUnlockWhileFrozen`).
- Data that a reader returns together with `io.EOF` is not uploaded
  (`SentIsSourceIffNoTail`), so a source over 2^31 bytes can be committed cut off
  (`OversizeCanCommitTruncated`); `UploadedIffFits` says what is committed for every source.
- A mount-table line with a device and a mount point but no type makes the reader panic
  (`PanicsIffSomeLineTrips`). A symlinked device is listed at every eligible line unless
  it leads to `dm-*` (`ListsExactlySelected`, `RepeatsIffLinkedAgain`). Repeats and order
  make no difference exactly when no mount point fails or none would change
  (`FreezeIgnoresOrderIff`, `ThawIgnoresOrderIff`).
- A declared terminal-name length of 2^32-4 or more overflows (`PtyRequestOutcome`).

## Model

| member | source | states |
|---|---|---|
| Lifecycle.RunKeepsInv | internal/secure_shell/server.go:216-261 | every state reachable by any interleaving satisfies the life-cycle invariant: counts, sets, channels and waits agree |
| Lifecycle.WaitGroupsCountActivations | internal/secure_shell/server.go:505-544 | in every interleaving each wait group equals the number of activations between add and remove, and Done never finds zero, also after Close emptied the sets |
| Lifecycle.TrackedConnectionsAreKnownOrClosed | internal/secure_shell/server.go:216-231 | a tracked connection is in the set or was closed by Close; the set holds only tracked ones |
| Lifecycle.OnlyCloseInterrupts | internal/secure_shell/server.go:233-245 | until a Close no connection is interrupted, whatever Shutdowns ran, and the set is exactly the tracked connections |
| Lifecycle.StopClosesEverything | internal/secure_shell/server.go:216-245 | after Close or Shutdown every served listener is closed or about to be; Close also closes every tracked connection, Shutdown touches none |
| Lifecycle.ShutdownWaitsForTracked | internal/secure_shell/server.go:238-261 | when Shutdown has seen `finished`, every Serve and connection tracked when it was called has been untracked |
| Stopping.HandshakeOutlivesShutdown | internal/secure_shell/server.go:238-261 | from every state, with any Serves and connections in flight, a Shutdown can finish while a connection not yet tracked at the call is unchanged |
| Stopping.ShutdownAwaitsIffTracked | internal/secure_shell/server.go:238-261 | of the connections alive at the call, Shutdown waits for one in every continuation if and only if it is tracked |
| Stopping.CloseClosesExactlyTracked | internal/secure_shell/server.go:216-231 | of the connections alive at a Close, exactly the tracked ones are closed, whatever follows short of another Close |
| Stopping.HandshakeOutlivesClose | internal/secure_shell/server.go:350-363 | from every state a connection not yet tracked at a Close can be served, unclosed, after it |
| Stopping.CloseReachesIffTracked | internal/secure_shell/server.go:216-231 | of the connections alive at the call, Close closes one in every continuation if and only if it is tracked |
| Lifecycle.NoChannelClosedTwice | internal/secure_shell/server.go:478-489 | no done channel is closed twice in any run of Close, Shutdown and reuse |
| Lifecycle.StartServeDropsDoneIff | internal/secure_shell/server.go:513-518 | adding a listener drops the done channel if and only if no listener and no connection is in the sets, which before any Close means that no connection is tracked |
| Lifecycle.ReturnedServeClosedItsListener | internal/secure_shell/server.go:268-316 | a Serve that has returned has closed its listener |
| Lifecycle.TrackedOnlyAfterHandshake | internal/secure_shell/server.go:350-363 | a connection is tracked exactly between its two trackConn calls, only after a handshake that succeeded, and never after one that failed |
| Lifecycle.ConnectionHistory | internal/secure_shell/server.go:314-363 | in every run the phase of a connection is the one the steps taken for it prescribe |
| Lifecycle.DoneClosedIffStopped | internal/secure_shell/server.go:463-527 | the done channel is closed exactly when some Close or Shutdown was not followed by a listener joining an empty server |
| Lifecycle.ServeReturnsErrServerClosedIff | internal/secure_shell/server.go:285-311 | a Serve whose Accept failed returns ErrServerClosed if and only if the server was stopped and not reset when it fetched the done channel, or is stopped before the next reset while it looks |
| Lifecycle.StoppedServeReturnsErrServerClosed | internal/secure_shell/server.go:282-311 | the documented case: stopped, and no listener added before the Serve looks |
| Lifecycle.ReuseMasksErrServerClosed | internal/secure_shell/server.go:513-518 | a run in which adding a listener after Close makes the earlier Serve return its Accept error |
| Lifecycle.BackoffDoublesUpToOneSecond | internal/secure_shell/server.go:294-308 | the n-th temporary Accept error waits min(5 ms * 2^(n-1), 1 s) |
| Lifecycle.ServeBacksOff | internal/secure_shell/server.go:285-314 | in every run a Serve's delay is the one its temporary Accept failures so far require; a successful Accept does not reset it |
| Lifecycle.ServeHandlesAcceptError | internal/secure_shell/server.go:287-311 | what follows an Accept error, in every run: ErrServerClosed under the exact condition above, else back to Accept after min(5 ms * 2^(n-1), 1 s) if and only if it was temporary, the n-th, else the Accept error |
| Lifecycle.TemporaryErrorIsRetried | internal/secure_shell/server.go:294-307 | a run in which a temporary error brings a Serve back to Accept after 5 ms |
| Lifecycle.ServeKeepsItsError | internal/secure_shell/server.go:268-316 | the error a Serve has decided on is the one it returns |
| ServerObject.Server.Run | internal/secure_shell/server.go:216-544 | the object follows every run of the life cycle: no Done ever finds a wait group at zero, and its fields end as the run says |
| ServerObject.Server.GetDoneChanLocked | internal/secure_shell/server.go:470-476 | returns the current done channel, making one if there is none |
| ServerObject.Server.CloseDoneChanLocked | internal/secure_shell/server.go:478-489 | closes the done channel unless it is closed |
| ServerObject.Server.CloseListenersLocked | internal/secure_shell/server.go:491-503 | closes and forgets every listener; reports an error exactly when some close fails, and one that did |
| ServerObject.Server.Close | internal/secure_shell/server.go:216-231 | takes the Close step of the life cycle: done channel, all listeners, all connections |
| ServerObject.Server.ShutdownLocked | internal/secure_shell/server.go:238-245 | takes the Shutdown step: all listeners and the done channel, no connection; reports an error exactly when some close fails, and one that did |
| ServerObject.Server.TrackListener | internal/secure_shell/server.go:505-527 | takes the add step (dropping the done channel of a server with no listener and no connection) or the remove step |
| ServerObject.Server.TrackConn | internal/secure_shell/server.go:529-544 | takes the add or remove step for a connection |
| ServerObject.Server.AddHostKey | internal/secure_shell/server.go:429-449 | overwrites the key of the same type in place or appends |
| ServerObject.Server.EnsureHostSigner | internal/secure_shell/server.go:81-95 | succeeds exactly when there is or can be made a key; the list is then non-empty and existing keys are kept |
| HostKeys.AddKeysIsLastPerType | internal/secure_shell/server.go:426-449 | any sequence of AddHostKey calls keeps one key per type, the last added, in order of first appearance |
| SessionMachine.RunAgrees | internal/secure_shell/session.go:254-423 | after every run of requests and concurrent calls the session agrees with what the request history alone prescribes |
| SessionMachine.OneReplyPerRequest | internal/secure_shell/session.go:254-423 | every request but a signal gets exactly one reply, in order, and each answer is the one its history prescribes |
| SessionMachine.AtMostOneStart | internal/secure_shell/session.go:257-326 | at most one shell, exec or subsystem request is granted, and one handler has then started |
| SessionMachine.HandlerStartsIffAcceptable | internal/secure_shell/session.go:257-326 | a handler starts if and only if some request is acceptable, exactly one; before that rawCmd is empty whatever was refused |
| SessionMachine.HandlerSees | internal/secure_shell/session.go:257-339 | the handler finds all earlier env requests in order, the accepted command or none for a subsystem, and the last subsystem asked for |
| SessionMachine.SetupNeverChangesAfterStart | internal/secure_shell/session.go:257-376 | once a handler has started, env, rawCmd, subsystem and the pty's presence and terminal never change |
| SessionMachine.RefusedSubsystemNameSurvives | internal/secure_shell/session.go:298-317 | a run in which a shell reports the name of a refused subsystem |
| SessionMachine.WindowsReceived | internal/secure_shell/session.go:376-400 | the windows received are a prefix of the pty's window then the accepted changes, at most the channel's capacity and one blocked send behind; the pty holds the last |
| SessionMachine.FirstWindowNeverBlocks | internal/secure_shell/session.go:376-386 | the first window is sent into an empty channel |
| SessionMachine.WindowChannelClosedOnce | internal/secure_shell/session.go:381-384 | the window channel is closed once, after the loop and all sends, if and only if a pty was accepted |
| SessionMachine.CrashesIffOverflow | internal/secure_shell/session.go:356-366 | the loop panics if and only if some pty request before any handler or pty has a length that overflows |
| SessionMachine.LoopReadyIff | internal/secure_shell/session.go:254-400 | the loop takes the next request exactly when it has not ended or panicked and waits for no window to be sent; that send goes on exactly when the channel is empty |
| SessionMachine.AgentForwardIffRequested | internal/secure_shell/session.go:401-405 | agent forwarding is on exactly once it has been asked for |
| SessionMachine.SignalBufferKeepsFirst | internal/secure_shell/session.go:340-355 | sigBuf is the first 128 signals that arrived unclaimed, in order; the others went to the channel registered at the time |
| SessionMachine.BreaksNotified | internal/secure_shell/session.go:406-417 | a break is granted exactly when a channel is registered, and that channel has then been notified once more |
| SessionMachine.ExitStatusIsFirstExit | internal/secure_shell/session.go:175-192 | at most one exit-status is sent, with the first Exit's code modulo 2^32; the channel is closed exactly if that send worked, and never by a later Exit |
| SessionObject.OutcomeMeets | internal/secure_shell/session.go:254-423 | in any state that agrees with the earlier requests, the reply, the wait or panic, and the handler started are those the earlier requests prescribe |
| SessionObject.Session.HandleRequest | internal/secure_shell/session.go:254-423 | one turn of the loop keeps the fields in agreement with the history; its reply, the handler it starts and the channel it notifies are those the history prescribes |
| SessionObject.Session.Exit | internal/secure_shell/session.go:175-192 | a status is sent only by the first call; the call succeeds exactly if it is the first and both its send and its close of the channel work |
| SessionObject.Session.Run | internal/secure_shell/session.go:254-423 | after any legal sequence of events: every request but signals answered once, in order and rightly, at most one handler started with the env, command and subsystem asked for before it, windows received in order, signals, breaks and exit status as the history prescribes |
| Newline.RewriteIsCook | internal/secure_shell/session.go:138-141 | the two replacements equal, on every byte string, the one pass that puts CR before each LF not preceded by CR |
| Newline.RewriteNormalises | internal/secure_shell/session.go:138-141 | the rewrite is idempotent, every LF of its output follows a CR, and it adds one byte per bare LF |
| Newline.RewriteFixedPoints | internal/secure_shell/session.go:138-141 | the rewrite changes nothing if and only if every LF already follows a CR |
| Newline.RewriteSplits | internal/secure_shell/session.go:134-152 | rewriting p+q is rewriting p then q if and only if p does not end in CR or q does not start with LF |
| Newline.Write | internal/secure_shell/session.go:134-152 | the count stays within len(p), is len(p) for a full channel write, a short count implies an error when the channel honours that contract, and it is exact under the condition of `CountIsExactIff` |
| Newline.CountIsExactIff | internal/secure_shell/session.go:143-146 | after a partial channel write the count is the number of input bytes whose rewriting was sent if and only if everything was sent or no LF among the bytes counted needed a CR |
| Newline.CountCanOverstate | internal/secure_shell/session.go:143-146 | two LFs of which CR LF is sent: one byte got through, two are reported |
| Payload.PtyRequestExact | internal/secure_shell/utils.go:22-47 | pty-req parses to a pty if and only if the payload starts with its RFC 4254 section 6.2 encoding, whatever follows |
| Payload.PtyRequestOutcome | internal/secure_shell/utils.go:74-91 | parses exactly when the string and two uint32s are present; overflows exactly for a declared length of at least 2^32-4 |
| Payload.StringExact | internal/secure_shell/utils.go:74-91 | a string parses if and only if the input starts with its encoding |
| Payload.Uint32Exact | internal/secure_shell/utils.go:93-99 | a uint32 parses if and only if the input starts with its encoding, its four bytes in big-endian order |
| Payload.WinchExact | internal/secure_shell/utils.go:49-72 | window-change is accepted exactly with 8 bytes and both dimensions at least 1, and inverts the encoder |
| Deadline.ServerConn.constructor | internal/secure_shell/server.go:332-346 | the set-up installs the earliest of the limits that the positive timeouts give |
| Deadline.ServerConn.UpdateDeadline | internal/secure_shell/conn.go:56-71 | installs the earliest of the limits present, none if there are none |
| Deadline.ServerConn.Touch | internal/secure_shell/conn.go:18-44 | after a Read or Write the deadline is the earliest limit the history leaves due; without an idle timeout it is not touched |
| Deadline.ServerConn.DropHandshake | internal/secure_shell/server.go:359-360 | after the handshake the deadline is the earliest limit the history leaves due, the handshake limit not among them |
| Deadline.ChoiceIsEarliest | internal/secure_shell/conn.go:56-71 | the chain of comparisons picks the minimum of the limits in force, none if there are none |
| Deadline.DeadlineIsEarliestDue | internal/secure_shell/conn.go:18-71 | after any sequence of reads, writes and the end of the handshake the deadline is the earliest of the absolute limit, the handshake limit unless dropped, and the idle limit from the last activity |
| Deadline.DeadlineNeverMovesEarlier | internal/secure_shell/conn.go:18-71 | with a clock that never goes back and updates one at a time the deadline never moves earlier, also when the handshake limit is dropped |
| Deadline.MaxDeadlineIsAbsolute | internal/secure_shell/server.go:338-340 | no activity pushes the deadline past the absolute limit |
| DeadlineSteps.MovesEarlierIffOvertaken | internal/secure_shell/conn.go:56-71 | in every interleaving of updates an installation moves the deadline earlier if and only if the deadline it replaces was computed after its own and differs |
| DeadlineSteps.ReadingIsEarliestDue | internal/secure_shell/conn.go:56-71 | each update chooses the earliest limit due when it reads the clock, the handshake limit among them until dropped |
| DeadlineSteps.MaxDeadlineIsAbsolute | internal/secure_shell/conn.go:56-71 | no interleaving of updates pushes the deadline past the absolute limit |
| DeadlineSteps.OverlapMovesDeadlineBack | internal/secure_shell/conn.go:18-71 | a Read and a Write whose updates overlap and move the deadline earlier |
| Forward.EveryListenerIsClosed | internal/secure_shell/tcpip.go:137-199 | if no entry is overwritten and Accept fails only on closed listeners (or, with no cancel at work, on listeners closed or about to be), once the closers have ended every listener is closed, and once the acceptors have too the map is empty |
| Forward.ForwardedOnceIsClosed | internal/secure_shell/tcpip.go:101-224 | the same for every run that forwards each bind address at most once, under the same condition on Accept |
| Forward.CancelClosesItsListener | internal/secure_shell/tcpip.go:203-220 | a cancel closes the listener the address led to when it looked, whatever happens in between |
| Forward.NothingClosedEarly | internal/secure_shell/tcpip.go:141-220 | in every run a closing goroutine looks only after its context has ended, and a listener is closed only after its address was canceled or the context of a forward of that address ended |
| Forward.OverwriteCanLeak | internal/secure_shell/tcpip.go:137-198 | whenever an entry is overwritten, at most three further steps orphan the earlier or the later listener, with Accept failing on closed listeners only |
| Forward.AbandonedIsLost | internal/secure_shell/tcpip.go:153-198 | whenever Accept fails on an open listener that nobody is about to close, deleting its entry orphans it |
| Forward.LeakIffOverwriteOrAbandon | internal/secure_shell/tcpip.go:101-224 | in every run there is no orphan before the first step that overwrites an entry or abandons a listener, and after each such step one is at most three ordinary steps away |
| Forward.OrphansStayOpen | internal/secure_shell/tcpip.go:141-151 | an orphaned listener stays open in every continuation |
| Forward.SamePortZeroLeaks | internal/secure_shell/tcpip.go:125-139 | a run in which two forwards of host:0 orphan the first listener |
| Forward.CancelThenForwardAgainLeaks | internal/secure_shell/tcpip.go:196-220 | a run of forward, cancel, forward again in which the first listener's goroutine deletes the second's entry and orphans it |
| Forward.AcceptErrorLeaks | internal/secure_shell/tcpip.go:153-198 | a run of one forward in which an Accept error orphans the listener |
| Forward.ForwardedTCPHandler.Store | internal/secure_shell/tcpip.go:137-139 | enters the listener; in a run without overwriting or faulty Accepts every earlier listener of the address is closed (or about to be) and cleaned up |
| Forward.ForwardedTCPHandler.LookForClose | internal/secure_shell/tcpip.go:141-151 | in such a run the closing goroutine finds its own listener or that one is closed already (or about to be) |
| Forward.ForwardedTCPHandler.Forget | internal/secure_shell/tcpip.go:196-198 | in such a run the accepting goroutine removes its own entry and no other |
| Forward.ForwardedTCPHandler.LookForCancel | internal/secure_shell/tcpip.go:203-220 | in such a run a cancel misses no open listener of the address that is not about to be closed |
| Forward.ForwardedTCPHandler.Run | internal/secure_shell/tcpip.go:101-224 | the handler through any run: it closes exactly the listeners the run says, and all of them when nothing is overwritten, no Accept is faulty and the closing goroutines have ended |
| Freeze.Server.FreezeFileSystems | core/filesystem.go:153-190 | unless the mount table cannot be read, locks and freezes the mount points up to the first that cannot be opened or fails otherwise than by EBUSY or EOPNOTSUPP; succeeds exactly when there is none |
| Freeze.Server.UnfreezeFileSystems | core/filesystem.go:192-229 | thaws the mount points up to the first that fails otherwise than by EINVAL; unlocks and succeeds exactly when there is none |
| Freeze.FreezeAllExact | core/filesystem.go:153-190 | a freeze locks and adds exactly the mount points it gets to without a fault, EOPNOTSUPP on the way being no obstacle |
| Freeze.ThawAllExact | core/filesystem.go:192-229 | a thaw takes away exactly the mount points it gets to, and unlocks exactly if no fault meets it |
| Freeze.Server.FreezeOne | core/filesystem.go:161-177 | EBUSY and EOPNOTSUPP are tolerated, other faults leave the filesystem as it was and fail |
| Freeze.Server.ThawOne | core/filesystem.go:198-214 | only EINVAL is tolerated |
| Freeze.RepeatsMakeNoDifference | core/filesystem.go:161-222 | as long as no mounted filesystem fails (EOPNOTSUPP being no failure of a freeze) the outcome depends only on the set of filesystems: exactly those that support it are frozen, all are thawed |
| Freeze.FreezeIgnoresOrderIff | core/filesystem.go:179-185 | order and repeats make no difference to a freeze if and only if no filesystem fails or none would be frozen |
| Freeze.ThawIgnoresOrderIff | core/filesystem.go:216-222 | order and repeats make no difference to a thaw if and only if none or all fail |
| Gate.GateExact | services/interceptors/pre_handler.go:13-36 | while locked, of all unary calls exactly system GetInfo, Unfreeze, and those of the agent, network and shell services are let in |
| Gate.HandlersUnderLock | services/interceptors/pre_handler.go:13-36 | over every run of calls that do not overlap, no other system or filesystem handler ever ran under the lock |
| GateSteps.RunsUnderLockIff | services/interceptors/pre_handler.go:13-36 | in every interleaving of calls, such a handler is at work under the lock if and only if lock() was called after it was let in and unlock() has not been since |
| GateSteps.AdmittedIffUnlocked | services/interceptors/pre_handler.go:13-36 | such a call is let in if and only if the lock is off when it arrives |
| GateSteps.SyncRunsUnderLock | services/interceptors/pre_handler.go:13-36 | a Sync let in before a Freeze takes the lock runs on under it |
| Gate.UnlockedMeansNothingFrozen | core/filesystem.go:153-229 | in every run of calls that do not overlap, with any faults midway, unlocked implies nothing frozen |
| Gate.FreezeTakesHold | core/filesystem.go:153-190 | in every run a Freeze that finds the agent unlocked locks it and freezes exactly what it gets to; one that finds it locked changes nothing |
| Gate.OtherCallsLeaveAgent | core/filesystem.go:153-229 | no other call, and none without a mount table, touches the lock or a filesystem |
| Gate.UnfreezeRestores | core/filesystem.go:192-229 | from any reachable state one Unfreeze without faults is let in, thaws everything and unlocks |
| FreezeSteps.UnlockedMeansNothingFrozen | core/filesystem.go:153-229 | the same in every interleaving of any number of freezes and thaws without a harmful step: a freeze that starts beside a thaw, or a thaw beside a freeze with mount points to go |
| FreezeSteps.HarmfulCanUnlockWhileFrozen | core/filesystem.go:216-224 | from every sound state each harmful step can be continued to an unlocked agent with a filesystem frozen |
| FreezeSteps.PromiseBreaksIffHarmful | core/filesystem.go:153-229 | in every run, up to the first harmful step nothing is frozen while unlocked, and that step can break it |
| FreezeSteps.LoneFreezeIsFreezeAll | core/filesystem.go:153-190 | the steps of a freeze, taken without interruption, are the whole FreezeFileSystems |
| FreezeSteps.LoneThawIsThawAll | core/filesystem.go:192-229 | the steps of a thaw, taken without interruption, are the whole UnfreezeFileSystems |
| FreezeSteps.LockFollowsHistory | core/filesystem.go:153-229 | in every interleaving the lock is on exactly if a freeze has started and no thaw has come to its end since |
| Mounts.GetMountPoints | core/filesystem_utils.go:22-87 | reads the table line by line, with its errors and panics |
| Mounts.ListsExactlySelected | core/filesystem_utils.go:43-81 | the list holds, in table order, each plain device at its first eligible line and each symlinked one at every eligible line unless it leads to dm-; the names listed are those of all eligible lines |
| Mounts.NeverListsLoopOrMapper | core/filesystem_utils.go:55-78 | whatever the table, no entry is a loop device, a device-mapper node or a network filesystem |
| Mounts.PanicsIffSomeLineTrips | core/filesystem_utils.go:49-60 | the reader panics if and only if some line has exactly two fields and a device not named before, ahead of any eligible device that is missing or unreadable; it lists if and only if neither occurs |
| Mounts.FirstStopDecides | core/filesystem_utils.go:43-78 | the first line that stops the reader decides between panic and error |
| Mounts.RepeatsIffLinkedAgain | core/filesystem_utils.go:62-80 | the list names a device twice if and only if a symlink leads to a device an earlier line names |
| Coverage.CleanFreezeCovers | core/filesystem.go:153-190 | after a freeze without failures exactly the supporting filesystems of the listed lines are newly frozen; with one filesystem per device these are those of all eligible lines that do not lead to dm- |
| Transfer.Store.UploadFile | services/filesystem/service.go:120-188 | for every sequence of turns: commits exactly the concatenated chunks, exactly when nothing fails and the total is at most 2^31; at every moment the file is its old self or complete and other files are untouched |
| Transfer.Store.Reassemble | services/filesystem/service.go:145-177 | the receive loop writes the chunks in order and stops exactly at the first that is canceled, unwritable or over the limit |
| Transfer.CleanIffNoStop | services/filesystem/service.go:168-172 | checking the running size at every chunk is checking the total |
| Transfer.CleanExact | services/filesystem/service.go:147-177 | a stream is clean exactly when it is chunks, each taken uncanceled and written, then the end |
| Transfer.Store.DownloadFile | services/filesystem/service.go:190-216 | sends the file's bytes, however it reads, and fails exactly on a missing file or a failing turn |
| Transfer.Store.CopyFrom | client/filesystem.go:142-168 | writes the file below a target that is a directory, else the target; succeeds exactly when Stat does not fail, a missing target does not end in a slash, the temporary file can be made, the stream is clean and the rename works; the file is replaced completely or not at all, at every moment |
| Transfer.StreamTo | client/filesystem.go:186-237 | sends the path, every chunk read, then the end; a failing read or Send cuts the stream there; succeeds exactly when none fails and CloseAndRecv works |
| Transfer.SentExact | client/filesystem.go:210-229 | what is sent is exactly the data before the first read that is anything else, and that read decides whether the source ends |
| Transfer.SentIsSourceIffNoTail | client/filesystem.go:210-229 | the whole source is sent if and only if no data comes together with io.EOF |
| Transfer.UploadedIffFits | services/filesystem/service.go:145-188 | for every source uploaded without faults: committed if and only if it ends and what is sent fits in 2^31 bytes; complete if and only if nothing comes with the end and the source fits; shorter if and only if something does |
| Transfer.OversizeCanCommitTruncated | client/filesystem.go:210-229 | a source of more than 2^31 bytes that is committed cut to 2^31 |
| Transfer.CopyThereAndBack | client/filesystem.go:123-180 | uploading at most 2^31 bytes and downloading them again yields the same bytes, however either side splits them |
| Version.IntRoundTrip | internal/version/version.go:73-83 | Int after parseInt is the identity on all ints, under truncating division |
| Version.VersionRoundTripIffCanonical | internal/version/version.go:73-83 | parseInt after Int is the identity if and only if minor and micro are below 100, all signs agree and the integer is in range |
| Version.IntOrderIsLexicographic | internal/version/version.go:81-83 | on such versions, negative ones too, integer order is lexicographic order |
| Version.PrintedVersionParses | internal/version/version.go:45-87 | parsing a printed version returns it, for every triple of ints |
| Version.ShortVersionsArePadded | internal/version/version.go:45-71 | one- and two-part strings parse as if zero-padded |
| Version.BadVersionsAreRefused | internal/version/version.go:45-71 | more than three parts, or a part that is not a number, make a string no version |
| Version.ParseString | internal/version/version.go:45-71 | the loops compute the parts as integers with missing ones 0, and fail on any bad part |

## Left out

- `golang.org/x/crypto/ssh`: the handshake, channels and `Unmarshal` are outside; a request carries the values `Unmarshal` left, a connection or key is an opaque value.
- `core/secure_shell/server.go`: the handler that spawns processes and copies pty I/O.
- Replay of buffered signals by the goroutine that `Signals` starts: it reads `sigBuf` and `sigCh` without the lock, so only the buffer itself is modelled.
- Blocking sends on user channels (signals, breaks) and liveness in general: a step is taken when it completes, and the theorems are about safety.
- Data races on fields read without a lock (`session.pty`, `Server.Handler`, `serverConn.handshakeDeadline`), and Go's own check against reusing a wait group while a Wait is returning.
- `config`, `ensureHandlers`, `DirectTCPIPHandler`, agent forwarding and the other callbacks of `internal/secure_shell`: configuration and copying with no state of their own.
- Stream RPCs: their interceptor calls the handler unconditionally, so uploads and downloads run while the agent is locked.
- The mount table is fixed during a run of calls, and no other program freezes or thaws.
- `Transfer.Store.Reassemble`: one method stands for the receive loop of the server and that of the client, which differ only in the size limit; the contents of a temporary file after a failed write are not modelled, since it is removed.
- `Transfer.Store.CopyFrom`: the path below a target directory is a parameter (`filepath.Join` is outside); on the client a canceled context shows as a canceled turn.
- `Mounts.ListsExactlySelected` and the statements built on it take the root directory to exist and not to be a symlink, as on any mounted system.
- `Coverage.CleanFreezeCovers`: which filesystem a mount point leads to is a parameter.
- Forward requests that are malformed, not allowed or cannot listen: they are refused and change nothing.
- File modes, owners, hashes and directories in `core/filesystem.go`; `GetOSUsers` and `GetOSGroups`; network, statistics, cloud-init, command line and transport set-up: system calls and field copies.
- Sizes in `UploadFile` are unbounded: the running size is at most 2^31 before each addition, so the 64-bit sum cannot wrap.
