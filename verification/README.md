# Takosumi Mobile, verified

A Dafny model of the parts of Takosumi Mobile whose behaviour is hardest to see
from any one function, with proofs of what they promise. `dafny verify
dfyconfig.toml` checks the whole project.

| part | files | what it is |
|---|---|---|
| Linux browser guard | `LinuxKernel`, `LinuxGuard`, `LinuxSupervisor`, `LinuxStaleHandle` | a supervisor that sees a process tree only through separate reads while processes fork, exit, are reparented and have their pids reused |
| Windows browser guard | `WindowsJob`, `WindowsGuard` | the same promise over a Job Object, and its forced-cleanup count |
| push relay | `RateLimit`, `RelayStore`, `RelayPush`, `RelaySequence`, `WebPush` | counters, tables changed by atomic batches, the interleaved push handler, admission, the invalidation breaker, retention, the message framing |
| push manager | `PushManager` | records, native keys and relay subscriptions kept in step although any remote call may fail |
| WebSocket client | `WebSocket` (modules `WebSocketFrame`, `WebSocket`) | RFC 6455 frames out of arbitrary pieces, and reassembly |
| recent apps | `RecentApps`, `RecentHistory` | a two-level most-recently-used list in a JSON object |
| IPv6 keys | `Ipv6`, `Ipv6Spelling` | rate-limit keys that must not depend on how an address is spelled |

`Common` holds what several parts use.

## How it is modelled

Code that changes things step by step is a class whose methods change its fields;
pure code is functions. Whatever the code cannot see or control is a method with
a permissive contract, called wherever the original waits or makes a call:

- The Linux kernel is a step system over a table of processes (number of birth,
  pid, start time, parent, live or zombie, subreaper). `System.Others` lets any
  processes but the guard take any number of steps between two guard actions; the
  run so far is a ghost sequence of tables, so "at one instant" and "ever after"
  are statements over all runs. A (pid, start time) pair is never given out twice.
- A Job Object is the sequence of every process ever in it. A process gets its
  exit code, then leaves the job and is signaled; `TerminateJobObject` ends the
  members without a code at one instant. A drain is a record of its instants, and
  the count is a function of what was read at them.
- A D1 batch is one atomic step. `Relay.Others` runs any batches of other handlers
  wherever `handlePush` awaits. The answer of `sender.send` is a parameter. Device
  ids never come back; the relay's clock does not go back where the text says so.
- The relays, the native key store and the instance answer the push manager as
  they like; they may forget devices, subscriptions and keys at any time. Ids of
  devices and subscriptions are never issued twice. The manager's tasks run one
  after the other, as its queue has it. A refreshed session is of the same account.
- HMAC, ECDH and AES-GCM are parameters with two laws: ECDH commutes, opening
  undoes sealing; hashes, keys and tags have their lengths. `LawfulPossible` shows that
  the laws can be met.

What fails is counted: the class that stands for the outside has a ghost number of
failed calls, and a method that gives up, keeps something queued or records an error
says that it does so only if that number grew. That is how the text says what an
ordinary run does.

## Findings

Promises that are false as the source states them, each with a run or input that
shows it and the exact condition under which it holds:

- Linux, `observe` (guard_main.rs:292-296): a kept pidfd need not name an owned
  process. Between the second start-time read and the ownership walk the process
  may exit and its pid pass to a helper of the browser (`StrangerHandle`). It names
  the process the walk found owned exactly when the walk saw the same start time
  (`OwnedIffSameStart`), and one that was ever owned exactly when it was owned as it
  was opened (`EverOwnedIffAtOpening`). The safety that matters holds nevertheless:
  such a process is already gone, and no signal ever reaches a stranger
  (`Guard.Send`, `Guard.Supervise`).
- Windows, `count_forced` (guard_windows.rs:409-416): the process list holds at most
  1024 ids (windows_job.rs:228), so the count can be below the truth for a larger
  job (`CrowdUnderCounts`). It never is exactly for jobs of at most 1024
  (`NeverUnderCountsIff`).
- Recent apps (open-routing.ts:283-288): an object lists array-index keys first, so
  with such scope names the scope dropped from a full store need not be the least
  recently used one (`LosesAnotherExample`). `KeepsLatestIff` says exactly when it
  always is. The app does not reach the failing case: its scopes are 64 digits of
  base 16, too long for an array index (`AppKeepsMostRecent`).
- Recent apps: a key or scope outside the length limits is stored but never shown
  (`InvalidOpenHidden`), and that is the only way a list of at most 16 scopes can
  differ from its history (`ShowsRecentsIff`).
- The purge of counter rows is invisible for windows of up to 7201 seconds, one
  more than two hours, and not beyond (`PurgeInvisibleIff`). The relay's own windows
  are at most an hour, so none of its answers changes.

## Model

| member | source | states |
|---|---|---|
| `LinuxKernel.StepWellFormed` | native-tests/cef-candidate/src/guard_main.rs:216-222 | every step of the process model (fork beside or below the caller, exit with reparenting to the nearest subreaper, reap, reuse of a free pid) keeps a process table in which each process but init has a live, older parent |
| `LinuxKernel.SameProcessBetween` | native-tests/cef-candidate/src/guard_main.rs:216-221 | a pid that shows one start time at two instants named the same existing process at every instant between |
| `LinuxKernel.StableLink` | native-tests/cef-candidate/src/guard_main.rs:217-222 | a (start time, parent) link that reads the same twice held at every instant between the two reads, whatever was forked, reaped, reparented or reused meanwhile |
| `LinuxKernel.ParentOverTime` | native-tests/cef-candidate/src/guard_main.rs:220-221 | while a process exists its parent is replaced only by an older one, so a parent seen again was never left |
| `LinuxKernel.ReaperUnder` | native-tests/cef-candidate/src/guard_main.rs:220-222 | orphans of a descendant of the guard go to a process that is the guard or below it |
| `LinuxKernel.NextKeepsUnder` | native-tests/cef-candidate/src/guard_main.rs:220-222 | no step takes an existing process out of the guard's subtree |
| `LinuxKernel.OnceUnderAlwaysUnder` | native-tests/cef-candidate/src/guard_main.rs:220-222 | over every run, a process once below the guard is below it at every later instant at which it exists |
| `LinuxKernel.KinStayUnder` | native-tests/cef-candidate/src/guard_main.rs:769-772 | every process ever born under the guard, at any remove, is below it as long as it exists |
| `LinuxKernel.ChildlessHasNoDescendant` | native-tests/cef-candidate/src/guard_main.rs:769-772 | a guard without a child has no descendant at all |
| `LinuxKernel.EchildIsFinal` | native-tests/cef-candidate/src/guard_main.rs:604-628 | from an ECHILD on, while the guard starts nothing, no descendant exists or ever appears, in every interleaving |
| `LinuxKernel.EchildMeansNoKin` | native-tests/cef-candidate/src/guard_main.rs:769-772 | after an ECHILD every process ever born under the guard is gone for good |
| `LinuxKernel.GoneStaysGone` | native-tests/cef-candidate/src/guard_main.rs:262-267 | a process that is gone never comes back, under no pid |
| `LinuxGuard.NewHandleIsTame` | native-tests/cef-candidate/src/guard_main.rs:287-301 | a pidfd opened between two equal start-time reads and followed by an ownership walk can only ever reach a descendant of the guard: its process, if it still exists, is below the guard |
| `LinuxGuard.TameStays` | native-tests/cef-candidate/src/guard_main.rs:251-252 | what a kept pidfd can reach stays a descendant in every later state |
| `LinuxGuard.KeptStays` | native-tests/cef-candidate/src/guard_main.rs:253-258 | what the tracker knows of its handles survives any steps of other processes |
| `LinuxGuard.ChainMeansUnder` | native-tests/cef-candidate/src/guard_main.rs:215-222 | a chain of links that hold together and end at the guard is a line of descent |
| `LinuxGuard.ClosedHasDescendants` | native-tests/cef-candidate/src/guard_main.rs:116-148 | a set closed under children from the root holds every descendant |
| `LinuxGuard.System.Stat` | native-tests/cef-candidate/src/guard_main.rs:92-114 | one read of a process's start time and parent, at some instant among any steps of other processes |
| `LinuxGuard.System.PidfdOpen` | native-tests/cef-candidate/src/guard_main.rs:150-161 | the pidfd names the process that holds the pid at that instant; ESRCH means none does |
| `LinuxGuard.System.Signal` | native-tests/cef-candidate/src/guard_main.rs:184-203 | a signal through a pidfd reaches the process it names or nothing |
| `LinuxGuard.System.Kill` | native-tests/cef-candidate/src/guard_main.rs:671-681 | a signal by pid reaches whatever process holds the pid at that instant |
| `LinuxGuard.System.WaitPid` | native-tests/cef-candidate/src/guard_main.rs:609-627 | reaps one exited child; 0 with a live child; ECHILD only without any child |
| `LinuxGuard.Descendants` | native-tests/cef-candidate/src/guard_main.rs:116-148 | every pid found descends from the root when nothing moves, and then all descendants are found |
| `LinuxGuard.Rung` | native-tests/cef-candidate/src/guard_main.rs:226-247 | one link upward: the top only at the guard with its own start time, off at init, at a repeat or at a gone process |
| `LinuxGuard.Ascend` | native-tests/cef-candidate/src/guard_main.rs:223-249 | the upward walk of at most 128 links; the chain it returns was read link by link and ends at this guard |
| `LinuxGuard.Recheck` | native-tests/cef-candidate/src/guard_main.rs:235-240 | true only when every link read the same again, so the whole chain held at one common instant |
| `LinuxGuard.IsOwned` | native-tests/cef-candidate/src/guard_main.rs:223-249 | under every interleaving, true means that the pid's process was a descendant of this very guard at one common instant of the call; in a table that stands still, false means no descendant, or one more than 128 links down |
| `LinuxGuard.OpenOwned` | native-tests/cef-candidate/src/guard_main.rs:287-301 | returns a pidfd only if it is tame |
| `LinuxGuard.Tracker.Prune` | native-tests/cef-candidate/src/guard_main.rs:262-268 | drops exactly handles whose process was gone at an instant of the call, changes no other |
| `LinuxGuard.Tracker.Sought` | native-tests/cef-candidate/src/guard_main.rs:273-286 | skips a gone or already retained process and drops a handle whose start time differs |
| `LinuxGuard.Tracker.Retain` | native-tests/cef-candidate/src/guard_main.rs:287-301 | touches no other pid's handle; retains at most one new process, and releases this pid's handle only if its process was gone within the call |
| `LinuxGuard.Tracker.Observe` | native-tests/cef-candidate/src/guard_main.rs:261-303 | keeps the handle invariant under every interleaving and loses no handle but of a process gone within the call; `observed` is the number of distinct processes ever retained; when nothing moves, every descendant within reach ends up retained |
| `LinuxStaleHandle.OwnedIffSameStart` | native-tests/cef-candidate/src/guard_main.rs:287-301 | a kept pidfd names the process the walk found owned exactly when the walk saw the same start time; otherwise its process is gone by then |
| `LinuxStaleHandle.EverOwnedIffAtOpening` | native-tests/cef-candidate/src/guard_main.rs:287-301 | a kept pidfd names a process that was ever below the guard exactly when it was below it as it was opened |
| `LinuxStaleHandle.StrangerHandle` | native-tests/cef-candidate/src/guard_main.rs:287-301 | a run in which observe keeps a pidfd of a process that is not the one the walk found owned, and was never below the guard |
| `LinuxSupervisor.ExitCodeZero` | native-tests/cef-candidate/src/guard_main.rs:593-601 | only a normal exit with status 0 reads as 0; a signal death reads negative |
| `LinuxSupervisor.ExitCodes` | native-tests/cef-candidate/src/guard_main.rs:593-601 | a status n reads as n, and a death by signal n, with or without a core, as -n |
| `LinuxSupervisor.UnreapedStays` | native-tests/cef-candidate/src/guard_main.rs:805-807 | a child the guard has not reaped keeps its pid through every step of other processes |
| `LinuxSupervisor.BrowserReaped` | native-tests/cef-candidate/src/guard_main.rs:624-626 | reaping a pid ends the browser exactly when the browser is that child, and then the code is its own |
| `LinuxSupervisor.Guard.ReapOne` | native-tests/cef-candidate/src/guard_main.rs:608-628 | one waitpid: records the browser's own exit code exactly when it reaps the browser |
| `LinuxSupervisor.Guard.Reap` | native-tests/cef-candidate/src/guard_main.rs:608-628 | says all gone only on ECHILD, and then the browser's exit is recorded and no descendant exists |
| `LinuxSupervisor.Guard.SignalHandle` | native-tests/cef-candidate/src/guard_main.rs:645-682 | the handle's process is sent the signal (counted as forced, and then a descendant of the guard), or is gone, or a failure is on record |
| `LinuxSupervisor.Guard.SignalBrowser` | native-tests/cef-candidate/src/guard_main.rs:645-682 | the unreaped browser itself is sent the signal, through its pidfd or by the pid it still holds, or a failure is on record |
| `LinuxSupervisor.Guard.Send` | native-tests/cef-candidate/src/guard_main.rs:645-682 | every retained process and the unreaped browser is sent the signal, or was gone meanwhile, or a failure is on record; every signal delivered goes to a descendant of the guard, none to a stranger |
| `LinuxSupervisor.Guard.Tick` | native-tests/cef-candidate/src/guard_main.rs:686-739 | a failed observation is recorded, and a failed wait or else a failed reaping is recorded and reported; every invariant is kept |
| `LinuxSupervisor.Guard.Running` | native-tests/cef-candidate/src/guard_main.rs:686-739 | ends with the browser's exit, a stop, or a failure that is on record; it fails exactly when eight waits in a row failed, and a run without a failed call records nothing |
| `LinuxSupervisor.Guard.Phase` | native-tests/cef-candidate/src/guard_main.rs:744-768 | one drain phase: its own signal only, to descendants only, none in the natural phase; it ends at ECHILD with the browser's exit recorded, or at its deadline and not before, and goes on to another turn only after a wait asked before the deadline to end by it |
| `LinuxSupervisor.Guard.Drain` | native-tests/cef-candidate/src/guard_main.rs:743-774 | first no signal for 500 ms, then SIGTERM only for 500 ms, then SIGKILL only for 2 s; without an ECHILD the whole 3 s are taken; true only when no process ever born under the guard is left, and false only when the last reap did not say so; cleanup errors are there only if a call failed |
| `LinuxSupervisor.Guard.Remaining` | native-tests/cef-candidate/src/guard_main.rs:305-313 | lists the retained processes that existed within the call, and leaves out only ones gone within it; none after an ECHILD |
| `LinuxSupervisor.Guard.Report` | native-tests/cef-candidate/src/guard_main.rs:824-855 | the receipt: complete only with the browser's own exit code and an empty tree; exit 0 exactly for a written, complete receipt with code 0, no error and no cleanup error |
| `LinuxSupervisor.Guard.Supervise` | native-tests/cef-candidate/src/guard_main.rs:777-856 | for every run: only descendants are ever signalled, `forcedCleanup == 0` implies that nothing but the browser was, `kernelNoChildren` that no process ever born under the guard is left; exit 0 exactly for a written, complete receipt with code 0, no error and no cleanup error; a run without a failed call, a stop or a cut has no error and no cleanup error, so that it exits 0 exactly by the browser's own status |
| `WindowsJob.EvolvesTransitive` | native-tests/cef-candidate/src/guard_windows.rs:54-57 | what processes do by themselves composes over time, and an empty job stays empty |
| `WindowsJob.CountedWhen` | native-tests/cef-candidate/src/guard_windows.rs:108-119 | a process that runs or was ended by the termination counts as forced, one that ended with another code does not, and code 259 counts until the handle is signaled |
| `WindowsJob.KilledWasListed` | native-tests/cef-candidate/src/guard_windows.rs:369-407 | with room in the list and no failed read, each process the termination ended (among those counted in the total) was listed, opened under its own handle and counted |
| `WindowsJob.NeverUnderCounts` | native-tests/cef-candidate/src/guard_windows.rs:409-469 | the reported count is at least the number of processes TerminateJobObject ended, for every interleaving of processes entering and ending between the reads |
| `WindowsJob.CountExact` | native-tests/cef-candidate/src/guard_windows.rs:409-415 | the count is exact when nothing raced and no program returned the forced exit code itself |
| `WindowsJob.NeverUnderCountsIff` | src-tauri/plugins/app-screen/src/windows_job.rs:228-252 | the count is never below the truth exactly for jobs of at most 1024 processes when they are listed |
| `WindowsJob.CrowdUnderCounts` | src-tauri/plugins/app-screen/src/windows_job.rs:228-252 | a drain of any larger job that reports 0 although every unlisted process was terminated |
| `WindowsGuard.Run.ExitRead` | native-tests/cef-candidate/src/guard_windows.rs:131-144 | signaled is read before the code, again after the grace for one about to be signaled; the reading holds at one instant, a process signaled before is read as signaled, and a running one only after the whole grace |
| `WindowsGuard.Run.Reap` | native-tests/cef-candidate/src/guard_windows.rs:262-277 | records the browser's exit code once, and only its own, as soon as the browser has exited unless the call fails |
| `WindowsGuard.Run.Settled` | native-tests/cef-candidate/src/guard_windows.rs:289-294 | true only when the browser has exited and the job is empty; false only if that was not so, or a call failed and is on record |
| `WindowsGuard.Run.SettleUntil` | native-tests/cef-candidate/src/guard_windows.rs:331-355 | waits until the deadline and no longer; false only at the deadline; it answers within one tick of the last check that found the job busy |
| `WindowsGuard.Run.CountHeld` | native-tests/cef-candidate/src/guard_windows.rs:432-456 | counts exactly the readings classified as forced, records unknown ones as cleanup errors and nothing else, and never waits past the forced deadline |
| `WindowsGuard.Run.CountForced` | native-tests/cef-candidate/src/guard_windows.rs:422-469 | adds every process that entered after the total was read; a cleanup error is recorded exactly if a call failed |
| `WindowsGuard.Run.Hold` | native-tests/cef-candidate/src/guard_windows.rs:372-382 | lists and opens the members, each at some instant; a failed list is on record, a failed opening kept to be counted |
| `WindowsGuard.Run.ForceOut` | native-tests/cef-candidate/src/guard_windows.rs:369-407 | list, terminate, wait two seconds, count: its steps are a drain of the job whose reported count it adds; false only after the two seconds |
| `WindowsGuard.Run.Drain` | native-tests/cef-candidate/src/guard_windows.rs:359-407 | half a second for the job to empty by itself, then, exactly if it still held a process (or a call failed), the termination: nothing is terminated or counted before that; at most two seconds more, and false only after all of them; true only with the browser done and the job empty, and at once when it is so from the start; the forced count is that of the drain's own readings, never below the truth without cleanup errors and with room in the list |
| `WindowsGuard.Run.Running` | native-tests/cef-candidate/src/guard_windows.rs:299-323 | waits without a lifetime cap for the browser's exit or a stop; it gives up exactly after eight failed waits with a pause after each but the last, and that failure is on record |
| `WindowsGuard.Run.Look` | native-tests/cef-candidate/src/guard_windows.rs:528-538 | the processes still in the job and how many were ever in it, or a cleanup error for a failed read |
| `WindowsGuard.Run.Finish` | native-tests/cef-candidate/src/guard_windows.rs:522-567 | the receipt of a drain, field by field; exit 0 exactly for a written, complete, faultless one with the browser's exit code 0 |
| `WindowsGuard.Run.Supervise` | native-tests/cef-candidate/src/guard_windows.rs:491-567 | exit 0 exactly when the receipt is written and complete with exit code 0, no error and no cleanup error; then the job is empty for good; an error exactly for a stop before the start, a failed start or eight failed waits, a cleanup error exactly for a failed call of the rest, so a run without any has neither and the browser's own exit code; `forcedCleanup == 0` without cleanup errors means that no process was terminated (list not full), and nothing is before half a second of the drain |
| `RateLimit.WindowIsUnique` | relay/src/rate-limit.ts:39-41 | the window start is the only multiple of the width whose window holds the instant |
| `RateLimit.WindowsGrow` | relay/src/rate-limit.ts:39-41 | windows are aligned: a later instant is in the same window or in one at least a whole width later |
| `RateLimit.IncrementExact` | relay/src/rate-limit.ts:58-64 | UPSERT on one row answers the exact number of increments of the full history in the current window, and the row goes on standing for that history |
| `RateLimit.OneExact` | relay/src/rate-limit.ts:66-80 | the same for a table of buckets of different widths, on a clock that does not go back |
| `RateLimit.RetryAfterIsExact` | relay/src/rate-limit.ts:43-45 | now + secondsLeft is exactly the first second of the next window, and at least 1 |
| `RateLimit.AllowedPerWindow` | relay/src/rate-limit.ts:47-56 | of the calls in one window exactly the first `limit` are allowed |
| `RateLimit.SpanAllowsTwice` | relay/src/rate-limit.ts:47-56 | any span as long as the window holds at most twice the limit |
| `RateLimit.PurgeKeeps` | relay/src/app.ts:72-80 | the daily purge changes no later answer for windows of up to two hours and one second |
| `RateLimit.PurgeInvisibleIff` | relay/src/store.ts:252 | the purge is invisible for every history exactly when the window is at most 7201 s |
| `RateLimit.D1Counters.RunOne` | relay/src/rate-limit.ts:69-79 | one op of a batch, tied to the rows and to the full history |
| `RateLimit.D1Counters.Run` | relay/src/rate-limit.ts:69-79 | a batch answers, op by op, what the full history says |
| `RateLimit.D1Counters.Limit` | relay/src/rate-limit.ts:48-56 | allowed exactly while at most `limit` increments of the whole history fall in the current window; otherwise Retry-After ends exactly at the next window |
| `RateLimit.D1Counters.Purge` | relay/src/store.ts:252 | drops old rows without changing any later answer |
| `RelayStore.RowColumns` | relay/src/store.ts:65-171 | which batch changes which column of a row, and to what: platform, row number and creation never change, token and environment only by the row's own update, delivered_at only by a delivery, seen_at only by its own update, delivery or touch, and invalidated_at only as the guarded batches say |
| `RelayStore.TokenAfter` | relay/src/store.ts:141-156 | a row's token changes only in its own token update |
| `RelayStore.NextKeepsOneActive` | relay/src/store.ts:64-66 | every batch keeps at most one active device per (platform, token) |
| `RelayStore.NextKeepsSubs` | relay/src/store.ts:173-220 | every batch keeps each subscription with its device and endpoints unique |
| `RelayStore.NextKeepsBound` | relay/src/devices.ts:176-184 | rows per token never exceed keep + 1 plus the handlers between their batch and their prune |
| `RelayStore.RunKeepsInv` | relay/src/store.ts:65-118 | the three invariants hold in every interleaving of batches of any length |
| `RelayStore.PlatformNeverChanges` | relay/src/store.ts:136-156 | a device keeps its platform for good, over any interleaving |
| `RelayStore.Store.Supersede` | relay/src/store.ts:64-66 | every other active holder of the token is marked invalid, no other row changes, and the number returned is theirs |
| `RelayStore.BeyondCount` | relay/src/store.ts:111-118 | OFFSET keep leaves exactly min(keep, n) of n invalid rows |
| `RelayStore.KeptAreNewest` | relay/src/store.ts:111-118 | every row kept was invalidated after every row deleted, in the same second created later, and in the same second of both inserted later |
| `RelayStore.PrunedCount` | relay/src/store.ts:105-118 | right after a prune a token has its active row and at most keep invalid ones |
| `RelayStore.Store.CreateDevice` | relay/src/store.ts:72-95 | inserts the device and supersedes every other active holder, whose number it returns, in one step; a duplicate id undoes it all |
| `RelayStore.Store.UpdateDeviceToken` | relay/src/store.ts:136-156 | replaces the token, clears an invalidation, supersedes the other active holders, whose number it returns |
| `RelayStore.Store.PruneInvalidRowsForToken` | relay/src/store.ts:105-118 | of the token's invalid rows the newest keep (or all) stay, each invalidated, created or inserted after every row deleted; no other row goes, and exactly the deleted rows' subscriptions |
| `RelayStore.Store.InvalidateDevice` | relay/src/store.ts:158-171 | marks the device invalid exactly when it still holds the rejected token and is active |
| `RelayStore.Store.RecordDelivery` | relay/src/store.ts:120-129 | records the delivery and never moves seen_at back |
| `RelayStore.Store.DeleteDevice` | relay/src/store.ts:173-179 | the device leaves with exactly its subscriptions |
| `RelayStore.Store.CreateSubscription` | relay/src/store.ts:189-209 | inserts only while the device is there and id and endpoint are new |
| `RelayStore.Store.FindByEndpoint` | relay/src/store.ts:221-237 | the device behind an endpoint, or none exactly when no subscription has it |
| `RelayStore.Store.Purge` | relay/src/store.ts:238-254 | removes exactly the devices invalidated before one instant or last seen before another, with their subscriptions |
| `WebPush.Uint32RoundTrip` | relay/tools/web-push.ts:105 | the header's 32-bit record size keeps a number modulo 2^32 |
| `WebPush.Header` | relay/tools/web-push.ts:103-107 | the header buffer filled in place: salt, record size, key length |
| `WebPush.EncryptWebPush` | relay/tools/web-push.ts:72-108 | one aes128gcm record with the RFC 8291 layout |
| `WebPush.Unpad` | relay/tools/web-push.ts:130-133 | scans back over zeros to the delimiter 2 |
| `WebPush.UnpadUndoesPadding` | relay/tools/web-push.ts:98 | unpadding undoes padding for every plaintext, trailing 0x00 and 0x02 octets included, and any number of padding zeros |
| `WebPush.KeysOfStandard` | relay/tools/web-push.ts:50-70 | key and nonce are those of RFC 8291 section 3.4 and RFC 8188 section 2.2, by HKDF as RFC 5869 defines it: the authentication secret, then the two public keys in order, then the salt |
| `WebPush.UnpaddedWas` | relay/tools/web-push.ts:130-133 | what is unpadded was the plaintext, a delimiter and zeros; without a delimiter before the zeros there is none |
| `WebPush.DecryptWebPush` | relay/tools/web-push.ts:110-134 | none exactly where the original throws |
| `WebPush.DecryptUndoesEncrypt` | relay/tools/web-push.ts:72-134 | decryption undoes encryption for every plaintext, key, secret and salt, with ECDH commuting and AEAD opening undoing sealing |
| `WebPush.LawfulPossible` | relay/tools/web-push.ts:10-18 | such primitives exist: the laws assumed do not contradict each other |
| `WebPush.RelayAcceptsIff` | relay/src/push.ts:22-34 | with a 65-byte sender key the relay's check accepts the body exactly when the record size, modulo 2^32 as its field keeps it, is at least max(18, plaintext + 17) |
| `RelayPush.Relay.Admit` | relay/src/push.ts:53-80 | whatever other handlers do meanwhile, the decision is the one of the counts that the handler's own one or two batches read (Decided); undisturbed, the counters and the decision are exactly the admission function's |
| `RelayPush.Relay.Breaker` | relay/src/push.ts:103-121 | whatever others do meanwhile, one rejection is counted and the breaker is open exactly when the counts of that very batch are over the absolute limit, or over the share at or above the minimum of deliveries |
| `RelayPush.Relay.Rejected` | relay/src/push.ts:232-261 | whatever other handlers do meanwhile, the handler writes the tables once unless the breaker is open (502), and then it marks only the looked-up device and only while that holds the very token sent (Written, RejectsOnly); only a rejection the breaker sees is counted; 410 only if the device was invalid within the request while holding that token |
| `RelayPush.Relay.Accepted` | relay/src/push.ts:226-230 | delivered_at is written, by one batch, exactly when the device as looked up had no delivery for a day; otherwise nothing is done |
| `RelayPush.Relay.Conclude` | relay/src/push.ts:215-280 | what follows the answer: 201 with the smaller of the requested and the largest TTL, 410, 502 or 503 for a rejection, and the platform's own seconds (or 60) when it throttles or is unavailable; every 410 is true at an instant after it; the handler's own writes are the due delivery, the guarded rejection, or none |
| `RelayPush.Relay.HandlePush` | relay/src/push.ts:128-280 | with any batches of other handlers in between: 404 exactly when the lookup found no device; a request not in order is answered by the first thing wrong with it (401, 403, 410, 415, 400, 413) and runs no batch; one in order is turned away (429) on counts read within the request, or admitted, counted, sent and answered by the outcome; a 410 is true at the lookup, or, for an in-flight rejection only, at a later instant of the request while the device holds the very token looked up and sent; the handler itself writes the tables once at most, the due delivery or the rejection of the token looked up, which changes no device whose current token is another; undisturbed, tables, counters and answer are exactly the push function's |
| `RelayPush.RejectionSpares` | relay/src/store.ts:163-171 | a rejection changes no device but the one named, and that only while it is active and holds the rejected token |
| `RelayPush.FairShareIs` | relay/src/push.ts:76-78 | an endpoint is within its fair share exactly when as many messages from every active one fit the device's budget |
| `RelayPush.RejectionAnswered` | relay/src/push.ts:232-256 | a rejected device is left alone (502) exactly when it was delivered to before and the rejection takes the window over the absolute limit, or over the share at or above the minimum of deliveries; any other is invalidated (410) |
| `RelayPush.RefusalIs` | relay/src/push.ts:140-188 | a request passes the checks exactly when it is authorized, the device active, the headers in order and the body one record of at most 2800 octets; otherwise the first thing wrong says 401, 403, 410, 415, 400 or 413 |
| `RelayPush.EncryptedFitsIff` | relay/src/push.ts:177-188 | an encrypted message is refused for its body exactly when its plaintext is longer than 2697 octets (413) or does not fit the record size it names (400) |
| `RelaySequence.PastCeiling` | relay/src/push.ts:46-51 | past the device's ceiling an allowed request is within its endpoint's fair share |
| `RelaySequence.ForwardsBounded` | relay/src/push.ts:53-80 | forwards of a minute are at most the ceiling plus the sum of the fair shares min(endpointPerMinute, floor(L/j)) |
| `RelaySequence.DeviceCeiling` | relay/src/push.ts:53-80 | the same for any sequence of requests of a minute |
| `RelaySequence.FairShareNeverRefused` | relay/src/push.ts:46-51 | an endpoint with at most min(endpointPerMinute, floor(L/n)) requests, n active endpoints in the end, is never refused |
| `RelaySequence.MinuteTracked` | relay/src/push.ts:53-80 | through a minute of pushes and API calls to any devices the real counters hold exactly this device's requests |
| `RelaySequence.AdmissionInAMinute` | relay/src/push.ts:204-210 | both admission bounds on the real counters and handlers |
| `RelaySequence.BreakerCounts` | relay/src/push.ts:232-256 | only a rejection of a device that was delivered to before moves the invalidation counter; expired and never-delivered ones do not |
| `RelaySequence.BreakerEvent` | relay/src/push.ts:103-121 | the same through the daily purge and API calls |
| `RelaySequence.BreakerBounds` | relay/src/push.ts:90-121 | at most breakerMaxInvalidations previously delivered devices of a platform are invalidated on rejections in one breaker window |
| `RelaySequence.BreakerRatio` | relay/src/push.ts:118-120 | once deliveries reach the minimum, each such invalidation leaves their number within the share of deliveries |
| `RelaySequence.StepKeepsTimes` | relay/src/store.ts:124-134 | seen_at never goes back and is never before delivered_at |
| `RelaySequence.StaysInUse` | relay/src/push.ts:226-230 | after a 201 the device stays marked in use from less than a day before, through any later events |
| `RelaySequence.RetainedAfterDelivery` | relay/src/app.ts:72-80 | a device answered 201 at t is not deleted for inactivity before t + inactiveDeviceSeconds - one day |
| `PushManager.EnqueuedKeepsNewest` | src/push-manager.ts:366-388 | the queue holds the newest 64 removals; a full one loses its oldest and nothing else |
| `PushManager.PromptRemembered` | src/push-manager.ts:633-635 | the account asked last is remembered once, last, after the newest at most 63 asked before it |
| `PushManager.SoundRegistered` | src/push-manager.ts:240-253 | a new relay device makes every record stale and gives up what was queued, all of it of a device that is not the new one, and the invariant holds |
| `PushManager.SoundDropped` | src/push-manager.ts:366-388 | dropping a record keeps the invariant when its subscription is gone from the relay, queued, or of a device or relay not in use then; one more removal evicts the oldest of the app's queue when that is full, with 64 distinct dropped subscriptions in it |
| `PushManager.SoundRecorded` | src/push-manager.ts:460-467 | recording a fresh subscription keeps identities and subscription ids distinct |
| `PushManager.Manager.RegisterDevice` | src/push-manager.ts:241-253 | all records stale and nothing queued on success; nothing changed on failure |
| `PushManager.Manager.EnsureDevice` | src/push-manager.ts:256-277 | the saved device then holds this token, on this relay and platform, and the relay heard of it within seven days; a device in order costs no call; on failure nothing changed |
| `PushManager.Manager.Obtain` | src/push-manager.ts:297-315 | a relay subscription of the saved device, after re-registration or a token update where the relay asks for it, which is tried once; it fails only if a call failed |
| `PushManager.Manager.Subscribe` | src/push-manager.ts:292-358 | a record with keys, key, endpoint, pusher and origin, issued under the saved device; a failure names its cause, and what was made is undone unless the deletion failed too; no record is lost |
| `PushManager.Manager.RemoveSubscription` | src/push-manager.ts:360-388 | afterwards not recorded, and gone from its relay, queued, or of a device or relay not in use; queued exactly if the deletion failed |
| `PushManager.Manager.ProbeDevice` | src/push-manager.ts:390-413 | alive exactly if the relay confirmed the saved device; forgotten exactly if it does not know it or there is none for this relay; unknown without a token or an answer |
| `PushManager.Manager.Renew` | src/push-manager.ts:449-469 | exactly one record of the account afterwards; a failure keeps every record, at most stale |
| `PushManager.Manager.Enable` | src/push-manager.ts:449-469 | turning on leaves one live record with the instance's key; it fails only when it is not possible or a call failed, and keeps the earlier record, at most stale |
| `PushManager.Manager.Prepare` | src/push-manager.ts:449-458 | possible exactly with permission, a session, the instance's key and a token; the problem is the first that cannot be had |
| `PushManager.Manager.Disable` | src/push-manager.ts:472-479 | turning off leaves no record of the account, or nothing changes because notifications cannot work at all; the keys go unless a native call failed |
| `PushManager.Manager.Judge` | src/push-manager.ts:509-542 | a pusher that is gone turns the account off exactly when the relay confirms the very device the subscription was issued under, is unknown exactly when it cannot be asked, and else leads to a renewal; otherwise the record is refreshed |
| `PushManager.Manager.Refresh` | src/push-manager.ts:523-549 | renewed exactly when stale, without native keys, or with another key or relay, and otherwise fine without a new subscription, the device kept alive; a renewal fails only without a token or when a call failed |
| `PushManager.Manager.Check` | src/push-manager.ts:481-551 | off exactly without a record; unknown exactly without a session, the instance's answer or the relay's; unavailable as the instance or a failed renewal says; ok exactly for a record with its pusher, keys, key and relay; removed drops exactly the record, creates no subscription, and only after the relay confirmed the device; resubscribed leaves exactly one live record with the instance's key; the others keep every record |
| `PushManager.Manager.DropOrphans` | src/push-manager.ts:567-575 | keys without a record go, and their subscriptions from the saved device's relay, unless a call fails; records keep theirs |
| `PushManager.Manager.RetryRemovals` | src/push-manager.ts:576-586 | what leaves the queue is gone from its relay or of a device or relay not in use; what stays is exactly what failed again |
| `PushManager.Manager.Reconcile` | src/push-manager.ts:553-588 | exactly the records of saved accounts stay; when no native call fails the native keys left are exactly the records' (but those lost outside), and when no deletion fails nothing is queued |
| `PushManager.Manager.TokenRefreshed` | src/push-manager.ts:590-598 | the device is brought up to date unless a call fails; no record is lost and no subscription made; nothing happens without a record or a device |
| `PushManager.Manager.AccountRemoving` | src/push-manager.ts:600-610 | signing out leaves no record of the account, and no keys of it unless a native call failed |
| `PushManager.Manager.ShouldPrompt` | src/push-manager.ts:612-620 | asked exactly when possible, not yet asked and not on |
| `PushManager.Manager.Run` | src/push-manager.ts:170-178 | in any sequence of tasks, launches of any builds and losses outside: identities and subscription ids are distinct, records have their keys, a record is stale exactly when it is not of the saved device; and every subscription recorded between any two tasks is recorded still, gone from its relay, queued, was pushed out by one more removal as the oldest of the app's own full queue at a later instant, or was of a device or relay not in use between two later tasks |
| `PushManager.TracedNext` | src/push-manager.ts:366-388 | one more task keeps account of every subscription ever recorded |
| `WebSocketFrame.MaskTwice` | native-tests/desktop/windows_browser_observer.py:392-393 | masking twice with one mask gives the payload back |
| `Common.BigEndianRoundTrip` | native-tests/desktop/windows_browser_observer.py:434-437 | a big-endian number of k octets, 16- and 64-bit lengths among them, reads back |
| `WebSocketFrame.Send` | native-tests/desktop/windows_browser_observer.py:457-469 | one masked frame with the shortest length form |
| `WebSocketFrame.WireLayout` | native-tests/desktop/windows_browser_observer.py:457-469 | the layout of RFC 6455 section 5.2: two octets, the length in none, two or eight more, the mask, the payload |
| `WebSocketFrame.ParseUndoesWire` | native-tests/desktop/windows_browser_observer.py:427-452 | every frame up to 16 MiB, in each of the three length forms, masked or not, whatever follows, is read back; a longer one is refused |
| `WebSocketFrame.ParseStable` | native-tests/desktop/windows_browser_observer.py:427-452 | more bytes change neither a frame that is complete nor a refusal |
| `WebSocketFrame.ParsedFirst` | native-tests/desktop/windows_browser_observer.py:427-452 | a complete frame is final exactly by its first bit and has the opcode of the last four, whatever the reserved bits are, and a payload of at most 16 MiB |
| `WebSocket.AllSplit` | native-tests/desktop/windows_browser_observer.py:416-452 | parsing a stream in two pieces gives the frames of the whole, for any split |
| `WebSocket.ReassemblesFragments` | native-tests/desktop/windows_browser_observer.py:471-492 | however a message is fragmented and whatever control frames come between, it is delivered once and whole, after one pong per ping |
| `WebSocket.FragmentsEnd` | native-tests/desktop/windows_browser_observer.py:471-492 | in the middle of a message a close, another message, a stray continuation, an unknown opcode or too much data ends it with its own error, after the pongs before it |
| `WebSocket.Client.Fill` | native-tests/desktop/windows_browser_observer.py:416-425 | a read appends to the buffer; a timeout or the end loses nothing |
| `WebSocket.Client.NextFrame` | native-tests/desktop/windows_browser_observer.py:427-452 | the next frame of the stream, or none with no complete frame left in the buffer |
| `WebSocket.Client.Act` | native-tests/desktop/windows_browser_observer.py:471-492 | what one frame does to the message in progress, what is sent for it, and how the call ends, opcode by opcode |
| `WebSocket.Client.Receive` | native-tests/desktop/windows_browser_observer.py:471-492 | ends with the next message or error of the stream after only pongs, or with a stop that loses nothing |
| `WebSocket.Client.ReceiveAll` | native-tests/desktop/windows_browser_observer.py:396-399 | for every way the bytes are cut into reads and every place a read times out, the messages, pongs and errors are those of the undivided stream |
| `RecentApps.PushedIsRecent` | src/open-routing.ts:261-277 | a list pushed one by one and cut to n is the first n of the reversed history without repeats |
| `RecentApps.ReadApps` | src/open-routing.ts:246-255 | the first eight valid apps of a stored list, each once |
| `RecentApps.TidySound` | src/open-routing.ts:231-259 | whatever is stored, what is read has distinct scopes and at most eight distinct valid apps in each |
| `RecentApps.ReadsBack` | src/open-routing.ts:231-283 | what is written is read back |
| `RecentApps.IsIndexIff` | src/open-routing.ts:283-288 | the keys that an object lists first are exactly the numbers below 2^32 - 1 as they are written in base 10 |
| `RecentApps.RecentStore.ReadRecentScopes` | src/open-routing.ts:231-259 | reads the stored object scope by scope |
| `RecentApps.RecentStore.RecordRecentApp` | src/open-routing.ts:268-290 | the app first in its scope, the scope first, cut to 8 and 16 |
| `RecentApps.RecentStore.Replay` | src/open-routing.ts:268-290 | any number of opens leave the store the history functions describe |
| `RecentHistory.RecordedLists` | src/open-routing.ts:268-290 | recording in one scope leaves every other scope's list as it is, except for the one a new scope pushes out of a full store |
| `RecentHistory.EachScopeIsPushed` | src/open-routing.ts:268-290 | with at most 16 scopes each scope's list is its own cache, and no scope is lost |
| `RecentHistory.ShowsRecentsIff` | src/open-routing.ts:231-290 | over at most 16 scopes the list shown is the first 8 of the scope's de-duplicated reversed history after every open, exactly when every key has 1 to 512 characters and every scope at most 512 |
| `RecentHistory.KeepsMostRecent` | src/open-routing.ts:283-288 | unless a scope reads as an array index, the scopes kept are the 16 most recently used, in that order, after any number of opens |
| `RecentHistory.KeepsLatestIff` | src/open-routing.ts:283-288 | over any history of any number of scopes the store has exactly the 16 scopes used most recently after every open, exactly when each new scope that met a full store found the least recently used one to be no array index, or all 16 to be and it the largest; they are then in order of last use, but for array indexes |
| `RecentHistory.LosesLeastRecentIff` | src/open-routing.ts:283-288 | any full store in that order loses the least recently used scope to a new one exactly under that condition |
| `RecentHistory.AppKeepsMostRecent` | src/open-routing.ts:88-94 | the app's scopes, 64 digits of base 16, are never array indexes, so its store always has the 16 used most recently, newest first |
| `RecentHistory.LosesAnotherExample` | src/open-routing.ts:283-288 | a history of 17 scopes, the first of them "7", after which "7" is still stored although 16 were used since |
| `Ipv6.Stripped` | relay/src/devices.ts:73 | without its leading zeros a group is its number in base 16 |
| `Ipv6.OrDisjoint` | relay/src/devices.ts:61-62 | two octets shifted and or-ed are the group a * 256 + b |
| `Ipv6Spelling.QuadReplaced` | relay/src/devices.ts:58-63 | an IPv4 tail becomes the two groups of its octets |
| `Ipv6Spelling.OctetStartsIff` | relay/src/devices.ts:58-60 | an IPv4 tail is found exactly where the text ends with four runs of one to three digits with dots between, the first as long as it can be |
| `Ipv6Spelling.CoreParses` | relay/src/devices.ts:64-73 | groups around "::" parse to those groups with zeros between |
| `Ipv6Spelling.CoreParsesIff` | relay/src/devices.ts:64-73 | parts between colons parse exactly when each is one to four digits of base 16 and there are eight of them, or up to eight around one "::" |
| `Ipv6Spelling.SpellingParses` | relay/src/devices.ts:54-74 | every valid spelling of an address (any "::", leading zeros, letter case, brackets, zone id, IPv4 tail, spaces around) parses to its eight canonical groups |
| `Ipv6Spelling.NoKey` | relay/src/devices.ts:54-87 | text without a colon, such as an IPv4 address, has no key |
| `Ipv6Spelling.ParsedGroups` | relay/src/devices.ts:54-87 | whatever parses has a colon and is eight groups below 65536 written in base 16 without leading zeros, and its keys are their first ones |
| `Ipv6Spelling.SameKeyIff` | relay/src/devices.ts:75-87 | two spellings share their /64 (or /48) key exactly when their addresses share the first four (or three) groups |
| `Ipv6Spelling.SameSubnetIff` | relay/src/devices.ts:75-87 | two spellings share their /64 key exactly when the first 64 bits of their addresses are the same, and their /48 key exactly when the first 48 are |

## Left out

- LinuxSupervisor.Guard.Running: `System` carries how long a run is watched (`fuel`, any number); a watch cut off there is reported as `cut` and its receipt is not judged, because the original has no lifetime cap.
- LinuxSupervisor.Guard.Supervise: what a run without a failed call does is claimed for runs that are not cut off in that sense.
- LinuxGuard.System.Children: the children lists of a process's threads are read as one list at one instant.
- WindowsGuard.Run.Drain: the clock moves only while the guard waits, and a failed wait takes no time; scheduling delays and the time of the identity diagnostics are not counted.
- WindowsGuard.Run.SettleUntil: a failed wait between two checks of the drain, which the guard only sleeps over, is not counted as a failed call.
- WindowsGuard.Run.Supervise: the claim about the forced count needs that the list was not full (`crowded`), as `NeverUnderCountsIff` shows it must.
- Bodies of the methods that stand for the kernel, the relays and the network are one behaviour among those their contracts allow; callers know only the contracts.
- RelayPush.Relay.HandlePush: VAPID verification, header decoding and the sender's request are already-decoded values; only their outcomes are modelled.
- RelaySequence.BreakerRatio: `breakerMaxRatio * deliveries` is a real-valued function of the deliveries, so binary rounding of the ratio is not modelled.
- RelayStore.RunKeepsInv: assumes random device ids are new and that a token update carries the platform the device was found with, as the handlers do.
- PushManager.Manager.Run: local stores keep what is written and answer reads; a failing or missing store, and a crash between saving the device and marking the records, are not modelled.
- PushManager.Manager.Check: records carry no display fields (host, label, created at), and the instance's own table of pushers is only what it answers; a refreshed session of another account is not modelled.
- PushManager.Manager.Subscribe: a relay subscription whose undo fails is left at the relay unrecorded and unqueued, as in the original; the claims about dropped subscriptions are about recorded ones.
- WebSocket.Client.Receive: the opening handshake, UTF-8 decoding of a message and failures of sending a pong are left out; messages are bytes.
- RecentApps.RecentStore.RecordRecentApp: the JSON text is its decoded value (an ordered list of keys and lists), the store always answers, and a missing store is left out.
- Ipv6.Groups: only ASCII letters are lowered; no other character's lower case is a digit of base 16, a colon or a dot.
- Ipv6Spelling.SpellingParses: also covers "::" beside eight groups, which RFC 4291 does not allow; what else the parser lets through (octets above 255, say) is not claimed.
- Receipt paths, descriptor limits, signal masks, Win32 identity diagnostics and process groups of the guards: represented only by their effect on the process table or the job.
- HTTP routing, JSON decoding, logging, Worker configuration and the APNs and FCM senders: plumbing around the modelled steps.
- The device API handlers beside their batches: bodies, secrets and rate-limit rules are left out; `Rule` buckets stand for their counters.
- Views, icons, native plugin glue, `url-policy.ts`, `api.ts`, `web-connections.ts`, `custom-apps.ts`, `takosumi-origins.ts`: mostly single-branch facts that would only add easy members.
- `guard.py`, the fixture guard: the Rust guard is the richer version of the same protocol.
