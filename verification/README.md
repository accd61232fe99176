# Sesori, modelled and proved

Sesori's repository holds a bridge that is installed through npm, mobile and desktop clients, and the
tools that release them. This project models the parts whose correctness is a matter of protocol, order
or arithmetic, and proves for all inputs and all runs what they promise.

| file | models |
|---|---|
| `BootstrapLock.dfy`, `LockCalls.dfy` | the lock directory of the npm bootstrap: owner file, heartbeat process, stale eviction |
| `FileSystem.dfy`, `RuntimeInstall.dfy` | the staged copy and the two-rename swap with rollback, on a file system where any step may fail or be the last |
| `Bootstrap.dfy` | the gate that keeps, refuses or installs, and where any sequence of bootstraps ends |
| `Versions.dfy`, `Decimals.dfy` | `compareVersions`, the release tool's semantic order, and how the two relate |
| `Quoting.dfy` | quoting the printed commands, against the readers of a POSIX shell and of PowerShell |
| `PowerObserver.dfy` | the macOS power observer: a starter and stopper thread, an observer thread, a run loop |
| `Changelog.dfy` | the changelog that shows the newest entries within a length budget |
| `TrayIcons.dfy` | the ICO writer and a reader that follows its directory |
| `MergedPulls.dfy`, `ReleaseNotes.dfy`, `ReleaseTags.dfy` | the release-notes tool: commit walk, classification, sections and buckets, the tag compared against |
| `Termination.dfy` | macOS quit arbitration between AppKit and Dart |
| `SparkleUpdater.dfy` | update checks that join a running cycle, completions that re-enter included |
| `Dictation.dfy` | the Android dictation channel and its sessions |
| `Basics.dfy` | `Option` and bytes |

## How to read the models

- The lock and the power observer are step systems: one step is one file operation, or one C statement that
  touches shared state, of one process or thread, and the theorems speak of every sequence of steps.
- The file system is an object whose field maps paths to nodes. Every primitive step is recorded in
  `history`, so a statement about all recorded states is a statement about a kill at any moment. Every
  step may be refused, and refusals are recorded in `refused`, so an operation that fails has to show a
  refused step or something in its way; a failing write leaves any content behind.
- The dictation sessions, the Sparkle updater, the quit arbiter and the notes buffer are objects with the
  source's fields; ghost fields record what was seen from outside.

## Where the code does less than it seems to promise

Each of these is stated as an exact condition, with a concrete case beside it.

- Stale check and removal are two calls. Two waiters that both judge an abandoned lock stale can end up
  both holding it (`BootstrapLock.OvertakenEvictionBreaksExclusion`). Timely runs exclude, and go on to
  exclude whoever makes the directory next, exactly when no removal is overtaken that way
  (`ExclusiveExactly`).
- Between its two renames an install has no runtime in place. A run that ends there, killed or with its
  restoring rename refused, leaves nothing for the next gate, which then installs whatever it brings:
  killed there, an upgrade from 2.0.0 to 2.1.0 makes way for 1.0.0 (`Bootstrap.KilledUpgradeDowngrades`).
  From a ready install the version is lost or lower at the end exactly when some run ended there and
  nothing as high has taken effect since the last one that did (`DowngradedExactly`); it is kept and never
  goes down on the way exactly when no run ends there (`NeverDownExactly`).
- The runtime such a run leaves behind stands whole in the backup named after its process. Other
  processes' bootstraps keep it whole and never put it back, whatever becomes of them
  (`Bootstrap.OrphanOutlastsRuns`); an install that has cleared its staging places has kept it exactly when
  its pid is another one (`RuntimeInstall.OrphanKeptExactly`).
- An install that fails after its second rename, because the backup cannot be dropped, or is killed there,
  has still moved the version (`Bootstrap.FailedUpgradeMovesVersion`). So the end of a sequence is the
  maximum over the runs that took effect; the successful ones reach it exactly when they reach the version
  of every run that ended so late (`EndReachedBySuccess`).
- `compareVersions` compares pre-release texts character by character, so `internal.10` is below
  `internal.9` (`Versions.TenthInternalBuildSortsBelowNinth`); it agrees with section 11 of Semantic
  Versioning 2.0.0 exactly when the build numbers sort as text (`InternalBuildsAgree`).
- The changelog stays within its budget exactly when everything fits, or the header with the full count
  does (`Changelog.WithinBudget`); a budget of zero is always exceeded (`NoBudgetIsExceeded`).
- The message of a squash merge names its own pull request exactly when the title alone names that one, or
  names none and has no line break (`MergedPulls.SquashSubjectNames`). A reverted squash merge is listed
  under the pull request it reverts (`RevertNamesTheRevertedPull`), and a title that reads like a merge
  commit under the one it mentions (`MergeTitleNamesAnotherPull`).
- PowerShell also closes a verbatim string at four typographic quotes; with them, quoting is undone exactly
  when the path has none of them (`Quoting.PowershellQuoteUndone`, `TypographicApostropheIsLost`).
- A dictation session that ends before its start was answered still rejects that start when an error
  arrives, and releases itself a second time, which throws, since the audio thread is shut down. It throws
  in no other case (`Dictation.Session.OnError`, `ErrorAfterEarlyEnd`).

## Assumptions

- `Number(...)` of JavaScript is a parameter; the results about plain versions need only that it reads
  numerals as decimals. JSON encoding and decoding of the manifest is a parameter that reads back what it
  wrote. Strings are sequences of Dafny characters, where JavaScript and Dart have UTF-16 code units.
- Judging a lock is one atomic reading of the three files; removing a directory is one step; check and
  removal are two. A reused pid can make a dead owner look alive, never the reverse. Clocks do not go back.
- A downloaded payload has the version the gate compared. The payload's directory lies apart from the
  staging and backup directories. `exists` and the reads of the gate see the disk as it is; refusals strike
  the steps that change it, the copy's reads, the download and the hook before the swap.
- A run loop is left only by a stop, drains its queued blocks before it sleeps, and forgets a stop that came
  before it was entered. AppKit asks again when `terminate` is called without a pending reply. A Sparkle
  completion may start checks and run an event loop in which the updater's callbacks arrive; what it does is
  a finite tree of such events.
- A request past the last page of a GitHub listing gets an empty answer.

## Model

| member | source | states |
|---|---|---|
| BootstrapLock.LockKeptExactly | bridge/app/npm/sesori-bridge/lib/bootstrap_lock.js:142-228 | in every timely run of any number of bootstraps, crashes included, each live one's own directory stays in place from its mkdir to its removal if and only if no removal hits another directory than the one judged stale |
| BootstrapLock.MutualExclusionHolds | bridge/app/npm/sesori-bridge/lib/bootstrap_lock.js:172-228 | then at most one live bootstrap is ever between mkdir and removal |
| BootstrapLock.AtomicEvictionExcludes | bridge/app/npm/sesori-bridge/lib/bootstrap_lock.js:193-195 | when each removal directly follows its stale check, mutual exclusion holds in every timely run, with nothing else assumed |
| BootstrapLock.OvertakenEvictionBreaksExclusion | bridge/app/npm/sesori-bridge/lib/bootstrap_lock.js:193-195 | for every stale limit, a timely run from a fresh machine that ends with two bootstraps holding the lock |
| BootstrapLock.InvPreserved | bridge/app/npm/sesori-bridge/lib/bootstrap_lock.js:158-206 | every step keeps the invariant: the lock in place, its files as their owner left them, and nobody inside a directory somebody judged stale |
| BootstrapLock.TimelyIsFresh | bridge/app/npm/sesori-bridge/lib/bootstrap_lock.js:131-170 | the lock of a live bootstrap that set up in time and is young or has a fresh heartbeat is never judged stale |
| BootstrapLock.TimeSteps | bridge/app/npm/sesori-bridge/lib/bootstrap_lock_heartbeat.js:23-35 | time passing, a release, and a heartbeat that writes or exits keep the invariant, also when the heartbeat outlives its bootstrap |
| BootstrapLock.NextMkdirGetsTheLock | bridge/app/npm/sesori-bridge/lib/bootstrap_lock.js:44-51 | after a release that removes the directory, or an eviction, there is none until somebody makes one, and whoever does, whatever ran in between, is in the lock with it |
| BootstrapLock.ReleaseLeaves | bridge/app/npm/sesori-bridge/lib/bootstrap_lock.js:216-225 | a release takes its bootstrap out of the lock for good and leaves nobody in it; the directory is gone exactly when it could be removed |
| BootstrapLock.NextHoldersBeat | bridge/app/npm/sesori-bridge/lib/bootstrap_lock.js:65-82 | every live holder has its heartbeat running, from acquiring to release |
| BootstrapLock.BeatKeepsTimely | bridge/app/npm/sesori-bridge/lib/bootstrap_lock_heartbeat.js:23-42 | a beat keeps a holder, however old, timely until the stale limit has passed without another |
| BootstrapLock.ExclusiveWhileKept | bridge/app/npm/sesori-bridge/lib/bootstrap_lock.js:176-206 | a run in which live bootstraps keep their directories is exclusive throughout |
| BootstrapLock.ExclusiveExactly | bridge/app/npm/sesori-bridge/lib/bootstrap_lock.js:176-206 | a timely run has at most one bootstrap in the lock in every state, also after any mkdir that could come next, if and only if no removal is overtaken |
| BootstrapLock.StrayLetsTwoIn | bridge/app/npm/sesori-bridge/lib/bootstrap_lock.js:193-195 | after an overtaken removal the evictor's next mkdir puts two bootstraps in the lock |
| BootstrapLock.InstallsDoNotInterleave | bridge/app/npm/sesori-bridge/lib/bootstrap_lock.js:208-228 | between any two moments a bootstrap spends in the lock, its install from first step to last, no other is in the lock |
| BootstrapLock.AbandonedLockIsTaken | bridge/app/npm/sesori-bridge/lib/bootstrap_lock.js:144-196 | a directory with nobody in the lock and no live process's heartbeat, its owner dead or too old and its last write older than the stale limit, is found stale by every check without a reused pid, whatever has run since, and the process that finds it so can remove it and take the lock |
| BootstrapLock.AbandonedThroughout | bridge/app/npm/sesori-bridge/lib/bootstrap_lock.js:144-206 | until it is removed, no step changes such a directory |
| BootstrapLock.OwnerGoesWithTime | bridge/app/npm/sesori-bridge/lib/bootstrap_lock.js:142-149 | with time alone the owner of such a directory is too old to be asked |
| LockCalls.AcquireLock | bridge/app/npm/sesori-bridge/lib/bootstrap_lock.js:172-206 | at most ceil(timeout / wait) + evictions + 1 turns, one wait report if and only if the lock was met, and what the last turn saw for each outcome |
| LockCalls.WithBootstrapLock | bridge/app/npm/sesori-bridge/lib/bootstrap_lock.js:208-228 | of the two places that release, each behind its own test of what the callback returned, exactly one runs on throw, plain return, resolve and reject: one removal, last of all, after the callback and its promise have ended; the caller gets the callback's ending unless the release fails |
| FileSystem.Volume.CopyRecursive | bridge/app/npm/sesori-bridge/lib/runtime_install.js:95-107 | terminates on every tree disjoint from its target; on success the target has the source's kinds, bytes and modes (and what it had elsewhere); in every state on the way nothing else changed; it fails only on a refused step or when something stands in the way |
| FileSystem.Volume.RemoveRecursive | bridge/app/npm/sesori-bridge/lib/runtime_install.js:91-93 | on success nothing is left at the root; in every state nothing outside it changed; it fails only on a refused step |
| FileSystem.Volume.WriteFile | bridge/app/npm/sesori-bridge/lib/runtime_install.js:151-153 | on success the file holds the bytes; in every state only that node changed, whatever it holds |
| FileSystem.Volume.MakeDirectories | bridge/app/npm/sesori-bridge/lib/runtime_install.js:98-104 | on success the directory is there; nothing but missing directories on its path was made |
| FileSystem.Volume.Rename | bridge/app/npm/sesori-bridge/lib/runtime_install.js:211-219 | the whole subtree moves in one step or nothing changes; a move the file system allows fails only by being refused, and that is recorded |
| FileSystem.MovedLook | bridge/app/npm/sesori-bridge/lib/runtime_install.js:211-214 | a rename carries the whole subtree, leaves nothing behind, and keeps every place apart from both ends |
| FileSystem.CopyComplete | bridge/app/npm/sesori-bridge/lib/runtime_install.js:97-101 | when every entry of a directory has been copied, the directory has |
| RuntimeInstall.StagePayload | bridge/app/npm/sesori-bridge/lib/runtime_install.js:198-205 | success leaves the payload's tree with a manifest naming its version in the staging root and no backup; meanwhile only the two staging places change; it succeeds exactly when the payload is complete, no file blocks the parent directory and nothing is refused |
| RuntimeInstall.BackedUp | bridge/app/npm/sesori-bridge/lib/runtime_install.js:209-213 | after the first rename the old runtime is whole in the backup and the new one still whole in staging |
| RuntimeInstall.SwappedIn | bridge/app/npm/sesori-bridge/lib/runtime_install.js:214-215 | after the second rename the complete new runtime is at the install root |
| RuntimeInstall.Restored | bridge/app/npm/sesori-bridge/lib/runtime_install.js:218-220 | renaming the backup back gives exactly the old install root |
| RuntimeInstall.TrySwap | bridge/app/npm/sesori-bridge/lib/runtime_install.js:209-216 | every state of the swap is crash safe; success installs the new runtime and clears both staging places; a failure means a refused step and stops with a whole runtime somewhere |
| RuntimeInstall.Recover | bridge/app/npm/sesori-bridge/lib/runtime_install.js:217-223 | the rollback ends with the old runtime in place, or the new one; with the old one only in the backup if and only if the rename that restores it was refused; otherwise the staging root is gone unless its removal was refused |
| RuntimeInstall.DropStage | bridge/app/npm/sesori-bridge/lib/runtime_install.js:221 | with a runtime in place, that one is kept in every state while the staging root goes, unless its removal is refused |
| RuntimeInstall.InstallManagedRuntime | bridge/app/npm/sesori-bridge/lib/runtime_install.js:194-224 | after a kill at any step a complete old or new runtime is installed or the old one is whole in the backup; a caught failure leaves a complete one in place if and only if the restoring rename was not tried last and refused; it succeeds exactly when the payload is complete, nothing blocks the parent directory and no step is refused, and then the install is the payload's tree with its binary, libraries and manifest on their paths; a payload without binary or libraries is never installed; nothing else on the disk changes |
| RuntimeInstall.OthersKeepBackup | bridge/app/npm/sesori-bridge/lib/runtime_install.js:195-199 | a state another process's install leaves has an orphaned backup whole |
| RuntimeInstall.OthersKeepOrphan | bridge/app/npm/sesori-bridge/lib/runtime_install.js:195-199 | so has every state recorded during it |
| RuntimeInstall.OrphanKeptExactly | bridge/app/npm/sesori-bridge/lib/runtime_install.js:197-199 | an install that got past its clearing has kept an orphaned backup if and only if its pid is another one |
| Bootstrap.BootstrapManagedRuntime | bridge/app/npm/sesori-bridge/lib/bootstrap.js:198-286 | one bootstrap on the disk, the command's symlink aside: forced, it installs whatever is there; unforced, it refuses exactly an incomplete newer install and keeps exactly a complete one as new or newer, reporting its version and leaving it alone; in every other case it installs, when it can and nothing is refused, and the payload's version is then in place; crash safe throughout, and at its end and in every state a kill may leave the next gate sees what the sequence theorems assume |
| Bootstrap.GateMeaning | bridge/app/npm/sesori-bridge/lib/bootstrap.js:213-233 | when the gate refuses, keeps and installs, in terms of force, readiness and which version is below |
| Bootstrap.FateView | bridge/app/npm/sesori-bridge/lib/runtime_install.js:43-58 | what a finished install shows to the next gate: version and readiness, for each way it can end |
| Bootstrap.KillShows | bridge/app/npm/sesori-bridge/lib/runtime_install.js:194-224 | what a kill in any crash-safe state shows: the old view, the new version, or nothing |
| Bootstrap.CompareVersionsIsPreorder | bridge/app/npm/sesori-bridge/lib/runtime_install.js:72-89 | `compareVersions` is a total preorder, whatever `Number` reads |
| Bootstrap.StepKeepsHealthy | bridge/app/npm/sesori-bridge/lib/bootstrap.js:216-233 | a ready install stays ready after a run if and only if the run did not end with no runtime in place, and then its version does not go down |
| Bootstrap.Converges | bridge/app/npm/sesori-bridge/lib/bootstrap.js:216-286 | from any state, any sequence of unforced bootstraps, finished, failed or killed, ends at the maximum of the versions that took effect since the last run that left no runtime in place and the version it started from then; unchanged if none took effect |
| Bootstrap.BroughtMeaning | bridge/app/npm/sesori-bridge/lib/bootstrap.js:216-286 | which versions count: those of runs chosen by what they did, with no run after them leaving no runtime in place |
| Bootstrap.KeepsExactly | bridge/app/npm/sesori-bridge/lib/bootstrap.js:216-233 | after any sequence the gate keeps what is there if and only if it brings nothing newer than that start or one of those versions |
| Bootstrap.NeverDownExactly | bridge/app/npm/sesori-bridge/lib/bootstrap.js:216-228 | from a ready install every state is ready and no later version is lower if and only if no run ends with no runtime in place |
| Bootstrap.DowngradedExactly | bridge/app/npm/sesori-bridge/lib/runtime_install.js:209-222 | from a ready install the version is lost or lower at the end if and only if some run ended so and nothing as high has taken effect since |
| Bootstrap.VanishedUpgradeDowngrades | bridge/app/npm/sesori-bridge/lib/runtime_install.js:211-214 | such a run, killed or failed, lets any older version in |
| Bootstrap.KilledUpgradeDowngrades | bridge/app/npm/sesori-bridge/lib/runtime_install.js:211-214 | a kill between the renames takes 2.0.0 to 1.0.0 |
| Bootstrap.DisksFollowCourse | bridge/app/npm/sesori-bridge/lib/bootstrap.js:211-286 | through any sequence of bootstraps of any processes on one install, finished, failed or killed, what each gate sees on the disk is what the sequence theorems say |
| Bootstrap.DisksConverge | bridge/app/npm/sesori-bridge/lib/bootstrap.js:216-286 | so the disk at the end shows the maximum of what took effect since the last run that left no runtime and its start |
| Bootstrap.DisksNeverDownExactly | bridge/app/npm/sesori-bridge/lib/bootstrap.js:216-228 | and from a ready install every disk is ready and none lower than one before if and only if no run leaves the runtime in the backup only |
| Bootstrap.OrphanOutlastsRuns | bridge/app/npm/sesori-bridge/lib/runtime_install.js:195-199 | through any sequence of other processes' bootstraps an orphaned backup stays whole, and the gates see only what those bootstraps install |
| Bootstrap.RepeatInstallsNothing | bridge/app/npm/sesori-bridge/lib/bootstrap.js:229-232 | a version that took effect is kept later if and only if a version at least as high has taken effect since the last run that left no runtime; so always, when none did from it on |
| Bootstrap.EndReachedBySuccess | bridge/app/npm/sesori-bridge/lib/bootstrap.js:258-274 | a ready end is reached by the start or a successful run if and only if the version of every run that moved it while failing or being killed is |
| Bootstrap.LateFailureMovesVersion | bridge/app/npm/sesori-bridge/lib/runtime_install.js:214-222 | a failed upgrade that moves the version although no run succeeded |
| Bootstrap.FailedUpgradeMovesVersion | bridge/app/npm/sesori-bridge/lib/runtime_install.js:214-222 | the same from 1.0.0 to 1.1.0 |
| Versions.CompareVersions | bridge/app/npm/sesori-bridge/lib/runtime_install.js:72-89 | the loop computes the order the lemmas below are about, for cores of any length |
| Versions.CoreOrderMeaning | bridge/app/npm/sesori-bridge/lib/runtime_install.js:73-82 | the core comparison is decided at the first padded position that differs, and 0 exactly when there is none |
| Versions.OrderMeaning | bridge/app/npm/sesori-bridge/lib/runtime_install.js:72-89 | -1, 1 and 0 exactly when left is below, right is below, or padded cores and prereleases match |
| Versions.OrderAntisymmetric | bridge/app/npm/sesori-bridge/lib/runtime_install.js:72-89 | swapping the arguments negates the result |
| Versions.OrderTransitive | bridge/app/npm/sesori-bridge/lib/runtime_install.js:72-89 | transitive across zero padding and every prerelease case |
| Versions.PaddingIsZero | bridge/app/npm/sesori-bridge/lib/runtime_install.js:75-78 | one more part that reads as zero, or as no number, leaves versions equal |
| Versions.CompareSemver | tool/generate_release_notes.dart:180-188 | the loop over three parts computes the semantic order of the core |
| Versions.SemverOrderTotal | tool/generate_release_notes.dart:180-188 | that order is total, antisymmetric and transitive |
| Versions.PlainVersionsAgree | bridge/app/npm/sesori-bridge/lib/runtime_install.js:68-82 | on plain X.Y.Z texts, zero-padded or not, `compareVersions` is the semantic order |
| Versions.InternalBuildsAgree | bridge/app/npm/sesori-bridge/lib/runtime_install.js:83-88 | on this repository's release and internal versions it is the precedence of Semantic Versioning 2.0.0, section 11, if and only if the build numbers sort as text |
| Versions.TenthInternalBuildSortsBelowNinth | bridge/app/npm/sesori-bridge/lib/runtime_install.js:88 | for every core, internal.10 is below internal.9 |
| Quoting.ShellQuoteUndone | bridge/app/npm/sesori-bridge/lib/bootstrap.js:78-86 | reading the quoted text as one word under section 2.2 of POSIX.1-2017 XCU gives back every string |
| Quoting.PlainIsLeft | bridge/app/npm/sesori-bridge/lib/bootstrap.js:78-86 | exactly the nonempty texts of plain characters are left unquoted |
| Quoting.PowershellQuoteUndone | bridge/app/npm/sesori-bridge/lib/bootstrap.js:88-93 | reading it as a verbatim string gives back every string; with typographic delimiters if and only if the string has none |
| Quoting.TypographicApostropheIsLost | bridge/app/npm/sesori-bridge/lib/bootstrap.js:88-93 | a path with a typographic apostrophe does not come back |
| PowerObserver.NextKeepsInv | bridge/app/native/macos_power_observer.c:39-109 | every statement of either thread keeps the invariant over record, mutex, run loop and stop request |
| PowerObserver.NoLostStop | bridge/app/native/macos_power_observer.c:91-106 | whenever stop waits at the join, the observer is past its loop, will read or has read `stopping`, or has the stop block or its effect ahead and is not asleep without a wake-up |
| PowerObserver.NotStuck | bridge/app/native/macos_power_observer.c:58-72 | while stop waits the observer can always take a step and its rank is at most 19 |
| PowerObserver.StopProgress | bridge/app/native/macos_power_observer.c:58-72 | each of its steps lowers the rank, and no message raises it |
| PowerObserver.StopReturns | bridge/app/native/macos_power_observer.c:91-109 | however threads and messages interleave, the observer takes at most that many steps and can go on until it finishes, so stop returns |
| PowerObserver.Lifetimes | bridge/app/native/macos_power_observer.c:53-108 | in every reachable state nothing was used after free, destroy or release, and with the mutex free `run_loop` is set exactly while its retain is outstanding; after stop all is freed |
| PowerObserver.CallbackTrace | bridge/app/native/macos_power_observer.c:20-63 | acknowledgements and notices, in order, are none, only FAILED, or STARTED followed by the reactions to the messages handled: can-sleep acknowledged, will-sleep acknowledged and then told, powered-on told, early power-on ignored |
| PowerObserver.AcknowledgementsCounted | bridge/app/native/macos_power_observer.c:24-32 | among the reactions every can-sleep and will-sleep is acknowledged once, and nothing else ever |
| PowerObserver.NoticesCounted | bridge/app/native/macos_power_observer.c:28-36 | among the reactions the callback hears once of every will-sleep and every powered-on |
| PowerObserver.StartIsTold | bridge/app/native/macos_power_observer.c:39-63 | until a stop is asked for, a started observer is never stuck and within nine of its steps tells FAILED exactly when its registration fails, else STARTED |
| PowerObserver.MessageIsHandled | bridge/app/native/macos_power_observer.c:20-63 | until a stop is asked for, a message that waits is handled within fourteen observer steps and reacted to in full, and the observer is never stuck before |
| PowerObserver.RunningObserverReacts | bridge/app/native/macos_power_observer.c:20-63 | both from every reachable state |
| PowerObserver.StopCallAdvances | bridge/app/native/macos_power_observer.c:91-109 | each step of the stop call brings its return nearer and nothing takes it back; it returns with the record freed; each observer step while it holds the mutex brings its release nearer |
| PowerObserver.CallerWaits | bridge/app/native/macos_power_observer.c:94-106 | the stop call waits only at the join, or for a mutex the observer holds and gives back within four steps |
| PowerObserver.NextKeepsTrace | bridge/app/native/macos_power_observer.c:20-63 | every statement of either thread keeps that trace, counting what the current one still owes to its message |
| PowerObserver.MessagesHandled | bridge/app/native/macos_power_observer.c:44-63 | in every reachable state the messages handled are a prefix of those sent, in order and none twice; while the source is attached none is lost, and after its removal at most the one still waiting is |
| PowerObserver.NextKeepsArrivals | bridge/app/native/macos_power_observer.c:44-63 | every statement and every arrival keeps that account of sent, waiting and handled messages |
| PowerObserver.QuietAfterStop | bridge/app/native/macos_power_observer.c:106-108 | after the join the callback hears no more, in every continuation |
| Changelog.Render | client/app/fastlane/build_changelog.rb:34-56 | the text is a greedy choice: it fits (or shows nothing) and one more entry would not fit; read back row by row, when no input holds a line break, it is the commit's first seven characters, the first subjects in order, and, if any is hidden, a last row whose number is exactly how many are |
| Changelog.Greedy | client/app/fastlane/build_changelog.rb:43-52 | the loop's running length is the true length, so the lines kept are that greedy choice |
| Changelog.TextLength | client/app/fastlane/build_changelog.rb:46-55 | the length of the joined text is prefix plus exact footer |
| Changelog.OneMoreIsLonger | client/app/fastlane/build_changelog.rb:46-48 | one more entry lengthens the text while some stay hidden, although the count may lose a digit |
| Changelog.GreedyIsOptimal | client/app/fastlane/build_changelog.rb:34-56 | no longer prefix fits with its own exact footer, all entries without footer included |
| Changelog.WithinBudget | client/app/fastlane/build_changelog.rb:34-56 | the text is within budget if and only if everything fits or the header with the full count does |
| Changelog.NoBudgetIsExceeded | client/app/fastlane/build_changelog.rb:35-55 | with a budget of zero the header still goes out |
| Decimals.DigitsGrow | client/app/fastlane/build_changelog.rb:47 | counting one more adds at most one digit, and never removes one |
| TrayIcons.Ico | client/desktop/tool/generate_tray_icons.swift:85-109 | the file is header, directory and PNGs, or nothing when a conversion traps, exactly when one does |
| TrayIcons.AppendDirectory | client/desktop/tool/generate_tray_icons.swift:93-104 | the running offset is the position where each PNG will stand; traps exactly when a size, length or offset does not fit |
| TrayIcons.DecodeLittleEndian | client/desktop/tool/generate_tray_icons.swift:87-89 | reading a little-endian field gives back the number written |
| TrayIcons.RoundTrip | client/desktop/tool/generate_tray_icons.swift:85-109 | following directory entry i yields image i's PNG, and its size if and only if that is 1 to 256 |
| TrayIcons.HeaderFields | client/desktop/tool/generate_tray_icons.swift:90-92 | the file says that it is an icon: reserved 0, type 1 |
| TrayIcons.EntryRestRead | client/desktop/tool/generate_tray_icons.swift:95-100 | every image's entry gives its height as its width, no palette, reserved 0, one plane of 32 bits |
| TrayIcons.SlicesAreContiguous | client/desktop/tool/generate_tray_icons.swift:93-108 | the PNG slices start after the directory, follow one another without gap or overlap, and end at the end of the file |
| MergedPulls.SquashMeaning | tool/generate_release_notes.dart:271-297 | the number read from a subject is that of its leftmost `(#digits)` |
| MergedPulls.MergeMeaning | tool/generate_release_notes.dart:272 | the number read from a merge subject is the whole run of digits after its words |
| MergedPulls.SubjectMeaning | tool/generate_release_notes.dart:294 | the subject is the message up to its first line break |
| MergedPulls.SquashSubjectNames | tool/generate_release_notes.dart:271-297 | the number read from a squash merge's message, both patterns tried, is the title's own if it has one, else the pull request's; so it is the pull request's if and only if the title alone names that one, or none and has no line break |
| MergedPulls.MergeTitleNamesAnotherPull | tool/generate_release_notes.dart:295 | a title that reads like a merge commit is listed under the number it mentions |
| MergedPulls.RevertNamesTheRevertedPull | tool/generate_release_notes.dart:271-297 | the revert of a squash merge with a one-line title is read as the reverted pull request, or as one the reverted title mentions first, whatever its own number |
| MergedPulls.PagingLosesNothing | tool/generate_release_notes.dart:285-324 | stopping at the first page that is not full reads the whole list, also when it fills its last page |
| MergedPulls.RangeNumbersMeaning | tool/generate_release_notes.dart:292-316 | the walk collects exactly the numbers that commits name and, of a commit that names none, those of its merged pull requests |
| MergedPulls.MergedInOrder | tool/generate_release_notes.dart:308-315 | those of one commit stand in the order GitHub lists them, with nothing between |
| MergedPulls.DedupeIsUnique | tool/generate_release_notes.dart:279-301 | the numbers kept are the one sequence without repeats, with the same elements, in first-seen order |
| MergedPulls.ListMergedPrNumbers | tool/generate_release_notes.dart:274-334 | the page and commit loops compute that sequence over all commits walked, or refuse when fewer were walked than reported |
| MergedPulls.CompleteOrRefused | tool/generate_release_notes.dart:326-333 | when GitHub serves only the first commits of a range, the tool lists all of the range's pull requests or refuses, exactly when some were not served |
| MergedPulls.ListFiles | tool/generate_release_notes.dart:370-401 | the flags are those of all listed files although the loop stops early once all three are set |
| MergedPulls.FileSides | tool/generate_release_notes.dart:379-389 | a file is the app's exactly below mobile/ or client/ but not client/desktop/, the bridge's below bridge/, shared below shared/ |
| MergedPulls.LoadPr | tool/generate_release_notes.dart:356-421 | the entry is dropped exactly for the two bot authors; its flags are exact when every changed file was listed, and both sides are set when not |
| MergedPulls.LoadEntries | tool/generate_release_notes.dart:50-57 | the entries are those of the numbers kept, in their order, each describing its own pull request |
| MergedPulls.OneEntryPerPull | tool/generate_release_notes.dart:50-57 | a number has one entry if a commit walked names it, or names none and has it as a merged pull request, and no bot wrote it; and none otherwise |
| ReleaseNotes.PrefixMeaning | tool/generate_release_notes.dart:461 | the scanner finds type and rest exactly when the title reads type, optional scope, optional `!`, colon, rest |
| ReleaseNotes.BucketMeaning | tool/generate_release_notes.dart:463-475 | Added exactly for feat titles, Fixed exactly for fix and bug titles, in any letter case |
| ReleaseNotes.NotesBuffer.WriteSection | tool/generate_release_notes.dart:495-515 | what a section adds reads back as its entries under their buckets, and it leaves no heading without a line |
| ReleaseNotes.Render | tool/generate_release_notes.dart:486-541 | the text's lines read back as exactly the placements of App and Bridge, the flat list, the credits and the compare link; so do its characters, split at line breaks, when no shown title, name or address holds one; it begins with the title row and ends with the compare link from one ref to the other |
| ReleaseNotes.PlacementsOrdered | tool/generate_release_notes.dart:503-520 | App stands before Bridge, and in each Added before Fixed before Changed |
| ReleaseNotes.WhereInOrder | tool/generate_release_notes.dart:500-505 | within a bucket entries keep their order |
| ReleaseNotes.ShownTitle | tool/generate_release_notes.dart:477-484 | a conventional title is shown from its description on, any other whole, capitalised, then its number, and the shared mark exactly when it touches shared files |
| ReleaseNotes.TextRead | tool/generate_release_notes.dart:486-541 | a reader of the characters alone finds every heading, item and list entry where it was written |
| ReleaseNotes.EntryFits | tool/generate_release_notes.dart:477-484 | what is shown of an entry holds a line break only if one of its fields does |
| ReleaseNotes.SectionsConserve | tool/generate_release_notes.dart:517-520 | each section lists an entry as often as the entries hold it if it belongs there, else never; a shared one stands in both |
| ReleaseNotes.PlacedRight | tool/generate_release_notes.dart:500-513 | whatever is listed is an entry, under its own bucket, in a section it belongs to |
| ReleaseNotes.Generate | tool/generate_release_notes.dart:50-80 | the whole tool: refused exactly when the listing was truncated, else notes, read as for `Render`, on exactly the loaded entries |
| ReleaseNotes.EveryPullOnce | tool/generate_release_notes.dart:50-80 | from commits to notes: every pull request a commit names, or merged by a commit that names none, if not a bot's, has one entry, once in a section exactly when one of its files belongs there or is shared, and in both when not all its files were listed |
| ReleaseTags.StableTagMeaning | tool/generate_release_notes.dart:166-178 | the tags that parse are exactly v followed by a plain X.Y.Z |
| ReleaseTags.CandidateMeaning | tool/generate_release_notes.dart:199-214 | the tags considered are exactly the plain vX.Y.Z ones but the version's own that are below it, or all when it is not plain |
| ReleaseTags.SelectPreviousStableTag | tool/generate_release_notes.dart:195-221 | the first highest stable tag strictly below the version, and none exactly when no tag qualifies |
| ReleaseTags.BestIsUnique | tool/generate_release_notes.dart:215 | which tag that is, ties included, is determined by the candidates |
| ReleaseTags.BestGrows | tool/generate_release_notes.dart:204-219 | one more tag takes over exactly when it is above the best so far |
| ReleaseTags.BaseIsBelow | tool/generate_release_notes.dart:199-213 | the chosen tag's version is below the released one also under the bootstrap's `compareVersions` |
| Termination.ApplicationTermination.ShouldTerminate | client/desktop/macos/Runner/ApplicationTermination.swift:49-71 | the answer computed from four fields is the one the whole history asks for: let through if approved or Dart absent, declined while a quit runs or a reply is pending, else deferred |
| Termination.ApplicationTermination.Terminate | client/desktop/macos/Runner/ApplicationTermination.swift:20-28 | after approval comes a reply exactly when the history has a request waiting, else a second request that is let through |
| Termination.ApplicationTermination.CancelTermination | client/desktop/macos/Runner/ApplicationTermination.swift:29-35 | a reply to stay goes out exactly when the history has a request waiting, and the fields again say what the history does |
| Termination.ApplicationTermination.QuitRequestedReturned | client/desktop/macos/Runner/ApplicationTermination.swift:63-69 | approval and a reply to quit exactly when Dart did not listen and the history has a request waiting |
| Termination.RepliesCounted | client/desktop/macos/Runner/ApplicationTermination.swift:49-71 | in every sound history deferred answers and replies balance |
| Termination.AfterKeepsInv | client/desktop/macos/Runner/ApplicationTermination.swift:15-71 | every event keeps the history sound, a waiting request implying a running quit and no approval |
| Termination.EachDeferralReplied | client/desktop/macos/Runner/ApplicationTermination.swift:15-71 | over every event sequence replies equal deferred answers, less one while a reply is pending |
| Termination.ApprovalIsFinal | client/desktop/macos/Runner/ApplicationTermination.swift:49-62 | at every moment of every run: after approval each request is let through; a reply says quit exactly when approved; a request is deferred only with Dart attached, nothing approved and no quit running |
| Termination.DeclinedWhileQuitRuns | client/desktop/macos/Runner/ApplicationTermination.swift:56-60 | after a quit is begun or a request deferred, and until Dart calls it off, every unapproved request is declined |
| Termination.DeferredAfterCancel | client/desktop/macos/Runner/ApplicationTermination.swift:29-35 | called off, the next request is deferred again |
| Termination.UnattachedIsLetThrough | client/desktop/macos/Runner/ApplicationTermination.swift:53-55 | before Dart is attached every request is let through |
| Termination.LetThroughForGood | client/desktop/macos/Runner/ApplicationTermination.swift:20-28 | once Dart has terminated, or did not listen to a waiting request, every request is let through whatever follows |
| Termination.NothingLeftWaiting | client/desktop/macos/Runner/ApplicationTermination.swift:63-69 | after terminate, cancel, or a call nobody listened to, no request waits for its reply |
| SparkleUpdater.SparkleUpdater.CheckNow | client/desktop/macos/Runner/SparkleUpdater.swift:103-118 | a check is called at once with failure or the downloaded update, or joins the waiting ones and asks Sparkle for a check exactly when no session runs |
| SparkleUpdater.SparkleUpdater.WillInstall | client/desktop/macos/Runner/SparkleUpdater.swift:184-200 | afterwards nothing waits, all that waited were called in order with the download, and the update later checks report is the last one announced, this one unless another came meanwhile |
| SparkleUpdater.SparkleUpdater.DidFinish | client/desktop/macos/Runner/SparkleUpdater.swift:202-209 | all that waited were called in order with the cycle's outcome |
| SparkleUpdater.SparkleUpdater.CompleteChecks | client/desktop/macos/Runner/SparkleUpdater.swift:211-215 | snapshot, clear and call, re-entrant checks and callbacks included: it terminates, conserves every accepted completion and calls the snapshot in order |
| SparkleUpdater.SparkleUpdater.CallAll | client/desktop/macos/Runner/SparkleUpdater.swift:214 | each completion of the snapshot is called once and in order, whatever the earlier ones did |
| SparkleUpdater.WaitsOrWasCalledOnce | client/desktop/macos/Runner/SparkleUpdater.swift:103-215 | between events a completion accepted once waits or was called, exactly one of the two, and never twice; once an update has downloaded it was called |
| Dictation.Session.OnError | client/app/android/app/src/main/kotlin/com/sesori/app/OnDeviceSpeechService.kt:217-230 | an error ends the session with one event or one rejected start; the first missing language, and no other error, asks for the model's download; it throws if and only if the session had ended with its start unanswered |
| Dictation.Session.RejectStart | client/app/android/app/src/main/kotlin/com/sesori/app/OnDeviceSpeechService.kt:162-169 | the start is answered with an error, the session ends and is no longer current; the second release throws |
| Dictation.Session.EndWith | client/app/android/app/src/main/kotlin/com/sesori/app/OnDeviceSpeechService.kt:256-262 | one ending event and no more, and only the service's own current session is dropped |
| Dictation.Session.OnResults | client/app/android/app/src/main/kotlin/com/sesori/app/OnDeviceSpeechService.kt:212-215 | the last words come before the completion, and nothing comes from a session that had ended |
| Dictation.Session.Start | client/app/android/app/src/main/kotlin/com/sesori/app/OnDeviceSpeechService.kt:136-154 | the start is pending or, when listening throws, rejected at once |
| Dictation.Session.Cancel | client/app/android/app/src/main/kotlin/com/sesori/app/OnDeviceSpeechService.kt:193-199 | a pending start is answered as started, the session ends without an event |
| Dictation.Service.StartSession | client/app/android/app/src/main/kotlin/com/sesori/app/OnDeviceSpeechService.kt:65-81 | the session before ends; the new one, never seen before, is current with its start pending, or rejected when listening throws; earlier ones stay silent |
| Dictation.Service.CancelSession | client/app/android/app/src/main/kotlin/com/sesori/app/OnDeviceSpeechService.kt:95-99 | only the current session can be cancelled; any other id changes nothing |
| Dictation.Service.EndCurrent | client/app/android/app/src/main/kotlin/com/sesori/app/OnDeviceSpeechService.kt:53-57 | the current session ends without an event and no session is current |
| Dictation.Service.Handle | client/app/android/app/src/main/kotlin/com/sesori/app/OnDeviceSpeechService.kt:60-102 | every channel call gets its one reply, a start's deferred to its new session; a start ends the session before it and takes its place, sendAudio and finish hand the session of that id its job, cancel answers its pending start, ends it without an event and leaves none; any other id, and bad arguments, change no session; those that had ended stay as they were |
| Dictation.Deliver | client/app/android/app/src/main/kotlin/com/sesori/app/OnDeviceSpeechService.kt:201-232 | for each callback, what is said, how a pending start is answered and whether the session ends; every session but the current one has ended and those that had say and do nothing more |
| Dictation.Perform | client/app/android/app/src/main/kotlin/com/sesori/app/OnDeviceSpeechService.kt:53-262 | over any sequence of channel calls, callbacks to any session ever started, and disposals: every session but the current one has ended, each has said words and then at most one ending and had its start answered at most once, and those that had ended at any point stay silent |
| Dictation.CancelIsFinal | client/app/android/app/src/main/kotlin/com/sesori/app/OnDeviceSpeechService.kt:95-99 | after a cancel nothing is heard of that session, whatever sequence follows |
| Dictation.OneEnding | client/app/android/app/src/main/kotlin/com/sesori/app/OnDeviceSpeechService.kt:247-262 | a session's events hold at most one completed or failed, and it is the last |
| Dictation.ErrorAfterEarlyEnd | client/app/android/app/src/main/kotlin/com/sesori/app/OnDeviceSpeechService.kt:217-280 | a session that completes before its start is answered and then meets an error: the release throws |

## Left out

- BootstrapLock.MutualExclusionHolds: assumes that no eviction is overtaken, because the code's check and removal are two calls and the property fails otherwise (`OvertakenEvictionBreaksExclusion`); the lock and the observer are modelled on values, as step systems, since several processes or threads act on them.
- LockCalls.WithBootstrapLock: what stops the heartbeat is one step; polling for its exit, zombies and the retries of the removal are not modelled.
- Bootstrap.Converges: the runs come one after another; that they may, `BootstrapLock.InstallsDoNotInterleave` says of the lock.
- FileSystem.Volume.CopyRecursive: no symbolic links, no directory modes and no two names for one file.
- RuntimeInstall.InstallManagedRuntime: two installs at once on one disk are not modelled; the lock excludes them. Stripping of macOS attributes is not modelled, it swallows its own failures.
- Bootstrap.BootstrapManagedRuntime: the download and checksum are one step that may fail; the command's symlink, which is removed and remade also when the gate keeps what is there, the banner and the cleanup of a downloaded payload are not modelled.
- PowerObserver.StopReturns: assumes that the observer thread is scheduled and that IOKit's calls return.
- Quoting.ShellQuoteUndone: carriage returns and other characters a terminal may treat specially are ordinary characters here, as in the standard.
- MergedPulls.ListMergedPrNumbers: request failures and retries, and numbers too large for an integer, are not modelled; a message is what comes before and after its first line break.
- MergedPulls.LoadPr: the title is taken as already trimmed.
- ReleaseNotes.Render: the characters are read back only when no shown title, name or address holds a line break, since one that does looks like two rows. Upper-casing one character is a parameter.
- ReleaseNotes.Generate: who counts as a new contributor is a parameter.
- SparkleUpdater.SparkleUpdater.CheckNow: whether Sparkle has a session running is an input; the menu item and its window are not modelled beyond the events they let in.
- PowerObserver.CallbackTrace: a message still queued when the power source is removed is neither handled nor acknowledged.
- Dictation.Service.Handle: the Android version check in front of it and the recognizer's own behaviour are not modelled; any callback may reach any session at any time.
- Network access, archive extraction, SHA-256, JSON text, Windows PATH edits, `ps` probing, the installers' shell scripts, the Flutter window code, the release scheduler and the iOS dictation service are not part of this model.
