# Liri session: verified model

A Dafny model of the session manager and the daemon of Liri, with proofs about the parts that keep state and
react to events:

- **Inhibitor locks.** `ScreenSaver` hands out cookies, `LogindBackend` indexes locks by owner name, and
  `Logind` owns the open descriptors. Requests to logind are asynchronous; a reply creates the descriptor and
  travels up by direct signal calls; a release travels back inside one call. `LockSpec` is the protocol as a
  state machine, `LockInvariants`, `LockLeaks`, `LockCookies`, `IntendedUse` and `LockRequests` hold the theorems, and
  `LogindClasses` holds the three objects, each event handler proved to take exactly one step of the machine.
- **The link to logind** (`LinkSpec`, `LogindClasses`): registration with its session lookups, loss of the
  service, and edge-triggered property signals.
- **Session modules** (`Registry`, `SchedulerSpec`, `SessionClass`): discovery, grouping by startup phase, start
  with rollback, reverse stop; and the environment with its copies (`EnvironmentSpec`).
- **The modules themselves**: the shell with its retry loop and watchdog (`Shell`), autostart entries and
  services (`LifoModules`).
- **The daemon** (`DaemonSpec`, `DaemonClass`) and **application ids** (`DesktopId`).

`Traces`, `KeyOrder` and `Wrappers` hold what several of these share. `dafny verify dfyconfig.toml` checks
everything.

## How to read it

An object of the program is a class with the program's fields; a Qt signal inside the process is a direct call through
a listener field; a `QMap`, `QVector` or `QHash` field is a `map` or `seq` that methods reassign. Each method is
proved equal to a step function of a specification module (`Granted`, `Close`, `Walk`, `Handle`, ...), and the
theorems are about those functions, over all runs. Fields that only record what other processes have seen (descriptors
duplicated and closed, signals emitted, start and stop calls) are ghost. Replies, wait outcomes, plugin files and hash
iteration order are parameters, so every theorem holds for all of them. Descriptor numbers are reused freely once
closed, and any number of dups may fail, each with the number -1. Cookies are 32-bit and VT numbers are converted from
unsigned to signed 32-bit.

The two drain loops of `LogindBackend` walk a constant iterator whose entry is removed under it. They are modelled
as what they are evidently meant to be: while the index is not empty, uninhibit its first entry. Since that may
never end, the methods follow it for any given number of turns and say whether it is over by then.

## What the code does not do

Where the code falls short of what its comments or names suggest, the model follows the code, a lemma exhibits
the failure, and an if-and-only-if gives the exact condition under which the intent is met:

- A lock signal never finishes its drain loop while the link is down with locks held, or once any application has
  been granted a lock under the empty name (`DrainEndsIff`, `EmptyNameForever`). Both states are a few steps from
  startup (`LostLinkFromStartup`, `EmptyNameFromStartup`).
- No descriptor is listed twice, except that the -1 of a failed `dup` is listed like a descriptor: a grant keeps the
  list free of repetitions exactly when its number is not listed, and so a run does exactly when at most one -1 is
  left (`DistinctIff`, `EveryRun`, `TwoFailedDups`). Conservation and the alternation of `inhibitedChanged` hold
  regardless (`LedgerRun`).
- `isInhibited()` stays true after a lock signal exactly when some lock is an orphan, and orphans are made exactly
  by grants under a taken name, for instance when the session is unlocked twice (`InhibitedAfterLockIff`,
  `GrantedOrphans`, `RepeatedUnlockLeaks`, `SameReasonLeaks`). No later run releases an orphan that no cookie
  records (`OrphanForever`). In intended use there is none (`IntendedLife`).
- A lock signal leaves the cookies' records of the locks it released, so a cookie given back later can close a
  lock of another owner (`LockKeepsAgreementIff`, `StaleCookieClosesForeignLock`).
- Giving a cookie back closes its lock and forgets it exactly when the link is up and the cookie records a
  descriptor other than -1 (`GivesBackIff`). It fails before the reply, while the link is down, and for ever
  after a failed `dup`, whose -1 is recorded like a descriptor (`EarlyUnInhibitIsLost`,
  `DisconnectedUnInhibitLeaks`, `FailedDupIsRecorded`, `FailedDupForever`).
- A granted lock reaches a cookie exactly when it is the least one with that owner and reason, so a second one gets
  no descriptor as long as a smaller one lives (`GrantReachesIff`, `ShadowedRun`, `SameReasonLeaks`); it can once
  the smaller one is given back (`ShadowEnds`).
- The manager's own locks are requested in a constructor that runs before the link is up, and requests are dropped
  exactly when it is not, so none is held before the first unlock signal that finds the link up
  (`SetupIsDroppedIff`, `NoLiriStepIff`, `NoLiriBeforeUnlock`).
- Property replies that arrive after a disconnection undo the reset (`ResetKeptIff`, `LateReply`), and a
  registration whose lookups all fail reconnects to the previous session path (`ConnectsIff`).
- A second session shutdown stops every module again (`SecondShutdown`). The activation environment of the
  message bus keeps variables that were unset (`ActivationUnsetIff`).
- A shell that does not stop in time is killed, but its death is reported after the stopping flag is cleared, and
  the watchdog launches it again (`StopIsFinalIff`).
- A start of the shell that fails leaves a process under way exactly when a crash ended its wait while the watchdog
  could still relaunch, or no attempt started and the last one timed out (`FailedStartLeavesProcessIff`,
  `CrashDuringStart`, `TimeoutsDuringStart`).
- The daemon's shutdown stops no module (`ShutdownStopsAllIff`, `NothingStopsAfterShutdown`), and its start does
  nothing exactly when the systemd flag began set, was set, or every module is skipped; it begins set
  (`StartDoesNothingIff`, `StartDoesNothing`).
- A desktop file in a directory directly below the root can lose part of its name (`IdIsBaseIff`,
  `IdAtTopLevel`).

## Model

| member | source | states |
|---|---|---|
| LockInvariants.EveryRun | src/manager/backends/logind/logind.cpp:676-715 | on every run from startup: no descriptor is listed twice except the -1 of failed dups, and no number at all iff at most one -1 is left; distinct owners hold distinct open descriptors, save for failed dups, unless the empty name was used; opened = closed + held; no number is closed more often than it was opened; inhibitedChanged alternates from true and ends at isInhibited() |
| LockInvariants.RunInv | src/manager/backends/logindbackend.cpp:131-145 | the inductive form of the same, from any state that satisfies the invariant |
| LockInvariants.LedgerRun | src/manager/backends/logind/logind.cpp:692-712 | conservation and the alternation hold over every sequence of steps, whatever numbers dup returns and whether or not the steps are enabled |
| LockInvariants.CloseIndexed | src/manager/backends/logindbackend.cpp:140-145 | a connected release of an indexed number removes exactly the first owner that holds it from the index |
| LockInvariants.DistinctIff | src/manager/backends/logind/logind.cpp:691-692 | a grant keeps the list free of repetitions iff dup returned a number that is not listed |
| LockInvariants.DrainExits | src/manager/backends/logindbackend.cpp:161-168 | under its guard the drain loop ends with an empty index, having released the descriptor of each entry once, in the order of the owner names, and no other |
| KeyOrder.Lexicographic | src/manager/backends/logindbackend.cpp:161-168 | the index order: a proper beginning comes first, and otherwise the first different character decides |
| LockInvariants.DrainSpins | src/manager/backends/logindbackend.cpp:161-168 | without the guard no number of turns empties the index |
| LockInvariants.DrainEndsIff | src/manager/backends/logindbackend.cpp:161-168 | in every reachable state the drain ends iff nothing is indexed, or the link is up and no lock is held under the empty name |
| LockInvariants.DrainForIff | src/manager/backends/logindbackend.cpp:161-168 | the loop is over after so many turns iff its guard holds and they are at least as many as the entries; more turns change nothing |
| LockLeaks.LockReleases | src/manager/backends/logindbackend.cpp:161-168 | a finished lock signal released the descriptor of each index entry once, in the order of the owner names, and left exactly the list entries that no index entry accounts for |
| LockLeaks.InhibitedAfterLockIff | src/manager/backends/logind/logind.cpp:587-591 | isInhibited() is false right after a lock signal iff there was no orphan |
| LockLeaks.OrphanMeans | src/manager/backends/logindbackend.cpp:131-145 | where the index agrees with the list, an orphan is a listed descriptor that the index does not hold |
| LockLeaks.GrantedOrphans | src/manager/backends/logindbackend.cpp:131-138 | a grant orphans a lock iff its owner name is taken, and then exactly the lock that held the name |
| LockLeaks.NoLeak | src/manager/backends/logindbackend.cpp:161-176 | if every granted request finds its name free, no run leaks a lock and isInhibited() is false after each lock signal |
| LockLeaks.OrphanForever | src/manager/backends/logindbackend.cpp:161-168 | an orphan that no cookie records stays listed on every later run with any number of lock signals, and isInhibited() stays true |
| LockLeaks.LockCycle | src/manager/backends/logindbackend.cpp:103-121 | the run of lock, unlock and the three replies is legal and leaves exactly the manager's three locks, each under its name, and the next lock signal releases them |
| LockLeaks.EmptyNameForever | src/manager/backends/logindbackend.cpp:142-144 | once the empty name holds a lock, no later drain loop ends |
| LockLeaks.EmptyNameFromStartup | src/manager/backends/logindbackend.cpp:131-145 | link up, one Inhibit call with the empty name and its grant lead to a drain loop that never ends |
| LockLeaks.LostLinkFromStartup | src/manager/backends/logind/logind.cpp:702-707 | so do one grant under any name and the loss of the link |
| LockLeaks.TwoFailedDups | src/manager/backends/logind/logind.cpp:691-696 | two failed dups in a row list -1 twice and index it for two owners |
| LockLeaks.RepeatedUnlockLeaks | src/manager/backends/logindbackend.cpp:170-176 | a second unlock in a row loses the sleep lock to the next lock signal, and to every later run unless a cookie records it |
| LockLeaks.DisconnectedUnInhibitLeaks | src/manager/dbus/screensaver.cpp:126-136 | a cookie given back while the link is down is forgotten and its lock stays open |
| LockLeaks.GrantReachesIff | src/manager/dbus/screensaver.cpp:171-180 | a reply reaches a cookie iff it is live under the request's owner and reason and no smaller cookie is |
| LockLeaks.ShadowedRun | src/manager/dbus/screensaver.cpp:171-180 | of two cookies with one owner and reason, the greater gets no descriptor on any run during which the smaller one lives |
| LockLeaks.ShadowEnds | src/manager/dbus/screensaver.cpp:126-180 | once the smaller one is given back with its lock, the next grant reaches the greater |
| LockLeaks.SameReasonLeaks | src/manager/dbus/screensaver.cpp:171-180 | two cookies with one owner and reason: the first takes both grants, and the first grant becomes an orphan that no cookie records |
| LockLeaks.NoLiriStepIff | src/manager/backends/logindbackend.cpp:170-176 | a step keeps "no lock of the manager requested or held" iff it is not an unlock signal with the link up |
| LockLeaks.NoLiriBeforeUnlock | src/manager/backends/logindbackend.cpp:52-52 | the same over every run without such a signal |
| LockLeaks.SetupIsDroppedIff | src/manager/backends/logind/logind.cpp:648-649 | the constructor's requests are dropped iff the link is down, as it is at startup |
| LockCookies.CookiesDistinctIff | src/manager/dbus/screensaver.cpp:114-124 | two calls return the same cookie iff their numbers differ by a multiple of 2^32 |
| LockCookies.RunAgree | src/manager/dbus/screensaver.cpp:114-136 | on lock-free runs with unshared owner names, each recorded descriptor is listed and is its owner's entry in the index, and distinct cookies record distinct descriptors unless their dups failed |
| LockCookies.AgreeFromStartup | src/manager/dbus/screensaver.cpp:114-124 | the same for every such run from startup of at most 2^32 calls, where fresh cookies need no assumption |
| LockCookies.UnInhibitExact | src/manager/dbus/screensaver.cpp:126-136 | a connected UnInhibit closes exactly its cookie's lock and every other cookie keeps its own |
| LockCookies.GivesBackIff | src/manager/dbus/screensaver.cpp:126-136 | giving a live cookie back closes its lock and forgets it iff the link is up and it records an open descriptor other than -1 |
| LockCookies.FailedDupIsRecorded | src/manager/backends/logind/logind.cpp:691-696 | a failed dup is recorded as -1, and then UnInhibit does nothing |
| LockCookies.FailedDupForever | src/manager/dbus/screensaver.cpp:128-135 | such a cookie survives every lock-free run with unshared names, whatever other dups fail, and isInhibited() stays true |
| LockCookies.AttachReaches | src/manager/dbus/screensaver.cpp:171-180 | the reply to an application's request reaches the cookie that waits for it |
| LockCookies.EarlyUnInhibitIsLost | src/manager/dbus/screensaver.cpp:126-130 | a cookie given back before the grant ends up holding the lock |
| LockCookies.LockKeepsAgreementIff | src/manager/backends/logindbackend.cpp:161-168 | a lock signal keeps the three layers in agreement iff no cookie has a descriptor |
| LockCookies.StaleCookieClosesForeignLock | src/manager/dbus/screensaver.cpp:126-136 | after a lock signal and a reuse of the number, an old cookie closes another owner's lock |
| IntendedUse.IntendedLife | src/manager/backends/logindbackend.cpp:131-176 | in intended use from startup (own non-empty names, cookies given back while the link is up, unlock signals only when the manager neither holds nor awaits a lock) every grant finds its name free, the layers agree, and a lock signal with the link up ends and leaves nothing open |
| LockRequests.InhibitAsks | src/manager/backends/logindbackend.cpp:71-76 | a connected Inhibit call adds exactly one request, for blocking idle under the given name and reason, and records the new cookie for the two |
| LockRequests.RequestContents | src/manager/backends/logindbackend.cpp:103-121 | on every run from startup in which no application takes a name of the manager, each request in flight has the contents that go with its name: three keys, shutdown and sleep with delay, the lid, or blocking idle for every application; idle is blocked for applications only |
| LockRequests.RequestsRun | src/manager/backends/logind/logind.cpp:643-696 | what is in flight at the end of a run and what was answered is what was in flight before and what the steps asked for, as a function of the steps and the link alone |
| LockRequests.ScreenRun | src/manager/backends/logindbackend.cpp:147-176 | the lock screen is up at the end of a run iff the last lock, unlock or sleep step was not an unlock; resuming decides nothing |
| LogindClasses.Logind.Inhibit | src/manager/backends/logind/logind.cpp:643-674 | one request in flight, or nothing while the link is down |
| LogindClasses.Logind.HandleInhibitReply | src/manager/backends/logind/logind.cpp:679-696 | takes exactly the Granted or the Refused step through all three objects |
| LogindClasses.Logind.Uninhibit | src/manager/backends/logind/logind.cpp:702-715 | takes exactly the Close step, including the index entry |
| LogindClasses.Logind.GetUserSession | src/manager/backends/logind/logind.cpp:231-308 | succeeds iff some session is active with a valid type, and returns the one with the greatest index |
| LogindClasses.ChosenIff | src/manager/backends/logind/logind.cpp:231-308 | a session is found iff both calls succeed and some session is active and of type tty, wayland or x11; the one to return is the last such session |
| LogindClasses.Logind.FindSessionPath | src/manager/backends/logind/logind.cpp:51-74 | the session path after the three lookups |
| LogindClasses.Logind.ServiceRegistered | src/manager/backends/logind/logind.cpp:43-118 | takes exactly the LinkUp step and changes nothing of the locks but the connection |
| LogindClasses.Logind.ServiceUnregistered | src/manager/backends/logind/logind.cpp:120-149 | takes exactly the LinkDown step |
| LogindClasses.Logind.HandleActiveReply | src/manager/backends/logind/logind.cpp:393-408 | takes exactly the activity step, or none on an error |
| LogindClasses.Logind.HandleVtReply | src/manager/backends/logind/logind.cpp:425-440 | the same for the VT number, with its conversion |
| LogindClasses.Logind.HandleSeatReply | src/manager/backends/logind/logind.cpp:457-472 | the same for the seat |
| LogindClasses.LogindBackend.UninhibitAll | src/manager/backends/logindbackend.cpp:57-58 | in every state, so many turns of the loop leave the DrainFor state |
| LogindClasses.LogindBackend.HandleSessionLocked | src/manager/backends/logindbackend.cpp:161-168 | returns iff the loop's guard holds and there are turns enough, and then it took exactly the Lock step |
| LogindClasses.LogindBackend.HandleSessionUnlocked | src/manager/backends/logindbackend.cpp:170-176 | takes exactly the Unlock step |
| LogindClasses.LogindBackend.HandleUninhibited | src/manager/backends/logindbackend.cpp:140-145 | drops the first owner of the descriptor unless its name is empty |
| LogindClasses.ScreenSaver.Inhibit | src/manager/dbus/screensaver.cpp:114-124 | returns the seed and takes exactly the Inhibit step |
| LogindClasses.ScreenSaver.UnInhibit | src/manager/dbus/screensaver.cpp:126-136 | takes exactly the UnInhibit step |
| LogindClasses.ScreenSaver.HandleInhibited | src/manager/dbus/screensaver.cpp:171-180 | gives the descriptor to the least cookie for this owner and reason, if any |
| LogindClasses.Assemble | src/manager/backends/logindbackend.cpp:32-53 | the objects as built at startup are in the initial state of both machines |
| LinkSpec.LinkRun | src/manager/backends/logind/logind.cpp:136-148 | property signals never repeat a value at once, start away from the initial value and end at the property; no two connectedChanged(true) in a row; connected implies a session path; one idle hint for each connection |
| LinkSpec.LinkFromStartup | src/manager/backends/logind/logind.cpp:120-149 | the same for every run from startup, with the activity signal alternating from true |
| LinkSpec.RepliesStore | src/manager/backends/logind/logind.cpp:393-472 | a reply for the activity, the VT number or the seat stores its value whatever the state of the link, the number modulo 2^32 in the signed range, and touches nothing else but its signal's log |
| LinkSpec.ServiceEffects | src/manager/backends/logind/logind.cpp:43-149 | the whole effect of a registration and of the loss of the service |
| LinkSpec.LastActive | src/manager/backends/logind/logind.cpp:132-148 | over every run the activity is that of the last reply for it since the last loss of the service, else inactive |
| LinkSpec.LastVt | src/manager/backends/logind/logind.cpp:425-440 | the same for the VT number, else -1 |
| LinkSpec.LastSeat | src/manager/backends/logind/logind.cpp:457-472 | the same for the seat, else none |
| LinkSpec.ResetKeptIff | src/manager/backends/logind/logind.cpp:403-407 | a step keeps "not connected means inactive, VT -1, no seat" iff no reply with a live value arrives while disconnected |
| LinkSpec.ResetRun | src/manager/backends/logind/logind.cpp:132-148 | the same over every run |
| LinkSpec.LateReply | src/manager/backends/logind/logind.cpp:403-407 | a reply after the disconnection breaks it |
| LinkSpec.ConnectsIff | src/manager/backends/logind/logind.cpp:43-82 | a registration connects iff the link is up, a lookup gives a path, or all lookups fail and an old path is recorded; the first usable candidate wins, and the path otherwise is the old one or empty |
| Registry.DiscoveryIff | src/manager/pluginregistry.cpp:60-101 | a name is registered iff an accepted plugin carries it, with the object and metadata of the last one |
| Registry.RegisteredIff | src/daemon/pluginregistry.cpp:83-107 | an id is registered iff some plugin has it together with an interface id, metadata and the interface and type of the registry |
| Registry.DiscoveredDistinct | src/manager/pluginregistry.cpp:60-101 | if no plugin object is found under two ids, distinct registered names hold distinct objects |
| Registry.NameOfRegistered | src/manager/pluginregistry.cpp:55-58 | with distinct objects the reverse lookup returns the registered name in any iteration order |
| Registry.EnabledOrder | src/manager/session.cpp:210-226 | what start does not skip keeps the order of the list |
| Registry.EnabledMember | src/manager/session.cpp:210-226 | what start does not skip is exactly what is listed and registered under an id that is not disabled |
| Registry.PluginRegistry.AddPlugin | src/daemon/pluginregistry.cpp:83-107 | adds the object and the metadata if the plugin has an interface id and metadata of the right interface and type, and changes nothing otherwise |
| Registry.PluginRegistry.Discover | src/daemon/pluginregistry.cpp:65-81 | static plugins first, then the plugin directory |
| SchedulerSpec.DiscoveryToStart | src/manager/session.cpp:148-171 | with distinct objects and any hash order, the schedule holds each session module once in phase order, the names are the registered ids, each once, and start skips exactly the disabled ones |
| SchedulerSpec.OfPhaseOrder | src/manager/session.cpp:153-170 | within a phase the modules are in the hash order of their names |
| SchedulerSpec.StartStopTrace | src/manager/session.cpp:198-251 | start and one shutdown stop exactly the modules that started, once, in reverse order with non-increasing phases; a failing module and all later ones are never stopped, and no later one is started |
| SchedulerSpec.SessionLife | src/manager/session.cpp:148-297 | from plugin files to the end: modules start at most once in phase order, stop in exact reverse of the successful starts; only a session module whose plugin is the last proper one under an id that is not disabled is started, and all such are when every start succeeds |
| SchedulerSpec.StartedEnabled | src/manager/session.cpp:210-248 | only modules that are not disabled are started, and all of them are when all starts succeed |
| SchedulerSpec.WalkIsStartAll | src/manager/session.cpp:210-248 | the loop with skips and rollback runs the enabled modules up to the first failure |
| SchedulerSpec.SecondShutdown | src/manager/session.cpp:276-297 | a second shutdown stops every module again, and nothing iff nothing is loaded |
| SessionClass.Session.LoadPlugins | src/manager/session.cpp:148-171 | runs the discovery, then appends to each phase the session modules of that phase in hash order |
| SessionClass.Session.ModuleNames | src/manager/session.cpp:123-136 | the names of the schedule |
| SessionClass.Session.Start | src/manager/session.cpp:198-251 | publishes the environment, starts the systemd target if it loads, leaves the StartAll trace, serves the variables each started module asks for, and returns whether every start succeeded |
| SessionClass.Session.RunModules | src/manager/session.cpp:210-250 | the nested loop with rollback |
| SessionClass.Session.Shutdown | src/manager/session.cpp:276-297 | reverses the list in place and stops every module in that order |
| SessionClass.Session.UploadEnvironment | src/manager/session.cpp:299-343 | publishes exactly the allowed variables |
| SessionClass.Session.SetEnvironment | src/manager/session.cpp:253-262 | takes exactly the set step |
| SessionClass.Session.UnsetEnvironment | src/manager/session.cpp:264-274 | takes exactly the unset step |
| EnvironmentSpec.UploadMirrorsIff | src/manager/session.cpp:340-342 | a successful upload makes systemd mirror the session iff systemd has no extra allowed variable |
| EnvironmentSpec.ExtrasIff | src/manager/session.cpp:264-274 | only a refused unset of an allowed variable leaves an extra one |
| EnvironmentSpec.MirrorRun | src/manager/session.cpp:253-274 | after start, systemd mirrors the session over every sequence of successful sets and unsets |
| EnvironmentSpec.MirrorHeals | src/manager/session.cpp:253-262 | after any failed uploads one successful set restores the mirror |
| EnvironmentSpec.NeverUploaded | src/manager/session.cpp:304-318 | the login keys and BASH_FUNC keys are never uploaded |
| EnvironmentSpec.ActivationGrows | src/manager/session.cpp:320-338 | the activation environment never loses a variable |
| EnvironmentSpec.ActivationUnsetIff | src/manager/session.cpp:264-274 | an unset keeps the activation environment in step iff the key was not in it |
| EnvironmentSpec.AllowedIff | src/manager/session.cpp:304-318 | the keys that are never published, spelled out |
| EnvironmentSpec.SetEffect | src/manager/session.cpp:253-262 | a set stores the variable in the session and publishes every allowed variable to each copy that accepts, and changes nothing else |
| EnvironmentSpec.UnsetEffect | src/manager/session.cpp:264-274 | an unset removes the variable from the session and from a systemd that accepts it, and changes nothing else |
| EnvironmentSpec.LastSetWins | src/manager/session.cpp:253-274 | over every run a variable has in the session the value of the last set of it, or is absent after a last unset |
| EnvironmentSpec.SetArrives | src/manager/session.cpp:253-343 | a variable set and then left alone is in the session with its value, and, if allowed, in each copy iff one of the uploads from then on is accepted there, the copy keeping its old value otherwise |
| EnvironmentSpec.RequestsInOrder | src/manager/session.cpp:228-229 | the requests of the started modules are served in start order, and all of them |
| Shell.LaunchBound | src/plugins/session/shell/plugin.cpp:87-108 | at most 5 launches for each start and 3 by the watchdog over every run, and the counter never goes below minus the number of starts |
| Shell.StopIsFinalIff | src/plugins/session/shell/plugin.cpp:111-124 | nothing relaunches the shell after a stop iff the wait succeeded, there was no process, or the counter is used up |
| Shell.FailedStartLeavesProcessIff | src/plugins/session/shell/plugin.cpp:68-109 | a start that reports failure leaves a process under way iff a crash ended the wait with relaunches left, or no attempt started and the last one timed out |
| Shell.CrashDuringStart | src/plugins/session/shell/plugin.cpp:92-97 | a crash while start waits leaves a relaunched process |
| Shell.TimeoutsDuringStart | src/plugins/session/shell/plugin.cpp:87-108 | five timed-out attempts leave the process starting |
| Shell.StartSucceedsIff | src/plugins/session/shell/plugin.cpp:87-108 | a start from a stopped shell leaves it running iff it is installed, some attempt starts it, and it neither crashes nor exits before its bus name appears or the wait ends |
| Shell.StartLaunches | src/plugins/session/shell/plugin.cpp:87-108 | a start launches one process for its first attempt and one after each that failed, up to the first that started |
| Shell.EventEffects | src/plugins/session/shell/plugin.cpp:166-182 | what each process event does in each state; a crash relaunches iff it is settled, the shell is not being stopped and the counter is positive |
| Shell.FourCrashes | src/plugins/session/shell/plugin.cpp:174-182 | a running shell with a full counter is relaunched three times and stays down after the fourth crash |
| Shell.StopEffects | src/plugins/session/shell/plugin.cpp:111-124 | a stop clears its flag, and a successful wait has ended the process |
| Shell.ShellPlugin.Start | src/plugins/session/shell/plugin.cpp:68-109 | runs the retry loop; true iff installed, some attempt started, and the process runs when the wait ends, which from a stopped shell is as StartSucceedsIff says |
| Shell.ShellPlugin.Stop | src/plugins/session/shell/plugin.cpp:111-124 | ends as StopShell says even if the wait reports a crash |
| Shell.ShellPlugin.ProcessCrashed | src/plugins/session/shell/plugin.cpp:174-182 | takes exactly the watchdog step |
| LifoModules.LifoRun | src/plugins/session/autostart/plugin.cpp:78-90 | over every run of starts and stops the undo calls nest like a stack, and a stop leaves nothing open |
| LifoModules.SelectedGrows | src/plugins/session/autostart/plugin.cpp:43-76 | one more entry adds its file at the end if it is selected, and nothing otherwise |
| LifoModules.OpenAllOpens | src/plugins/session/autostart/plugin.cpp:70-72 | a start appends every entry and makes one call for each, in order |
| LifoModules.AutostartPlugin.Start | src/plugins/session/autostart/plugin.cpp:43-76 | launches and records the selected entries in order |
| LifoModules.AutostartPlugin.Stop | src/plugins/session/autostart/plugin.cpp:78-90 | terminates the recorded entries in reverse and clears the list |
| LifoModules.ServicesPlugin.StartService | src/plugins/session/services/plugin.cpp:68-91 | records the process id iff the service was registered or has been started, and its id is known |
| LifoModules.ServicesPlugin.Stop | src/plugins/session/services/plugin.cpp:52-66 | the erasing loop terminates, signals each id TERM then KILL in reverse order and ends empty |
| DaemonSpec.DaemonRun | src/daemon/daemon.cpp:168-228 | on every run loaded modules are distinct, auto-load, not on-demand and not disabled, and each module's starts and stops alternate from a start |
| DaemonSpec.InitialDaemon | src/daemon/daemon.cpp:77-146 | discovery and the optional initial start establish that invariant |
| DaemonSpec.LoadIff | src/daemon/daemon.cpp:168-204 | a load starts and records its module iff the name is registered for an auto-load daemon module that is not loaded, is not disabled, and without systemd or with the service name granted; otherwise nothing changes |
| DaemonSpec.UnloadIff | src/daemon/daemon.cpp:206-228 | an unload stops its module once and takes exactly it out of the loaded ones iff the daemon runs and the module is loaded; otherwise nothing changes |
| DaemonSpec.DeleteAndStop | src/daemon/daemon.cpp:104-166 | a deletion takes the module out of the three lists; a shutdown clears the flag and reverses the loaded modules; neither calls a module |
| DaemonSpec.StartRuns | src/daemon/daemon.cpp:121-146 | start calls and records, in list order, exactly the listed modules registered under names that are not disabled |
| DaemonSpec.DiscoverySplits | src/daemon/daemon.cpp:85-119 | a daemon module is listed under auto-load or on demand as the metadata of its plugin, the last proper one under its id, says |
| DaemonSpec.DiscoveredOrder | src/daemon/daemon.cpp:87-119 | the lists are in hash order |
| DaemonSpec.DaemonLife | src/daemon/daemon.cpp:77-228 | from the plugin files through discovery, start and any requests the invariant holds |
| DaemonSpec.ShutdownStopsAllIff | src/daemon/daemon.cpp:148-166 | shutdown leaves every module stopped iff none was loaded |
| DaemonSpec.NothingStopsAfterShutdown | src/daemon/daemon.cpp:206-209 | from a shutdown on no module is ever stopped |
| DaemonSpec.StartDoesNothingIff | src/daemon/daemon.cpp:57-146 | start does nothing iff the systemd flag began set, some request set it, or every module is skipped |
| DaemonSpec.StartDoesNothing | src/daemon/daemon.cpp:57-65 | with the flag set at the beginning, whatever it is set to, start starts nothing |
| DaemonClass.Daemon.Initialize | src/daemon/daemon.cpp:77-119 | fails iff the bus name is needed and refused; else runs the discovery and splits the daemon modules by their auto-load flag |
| DaemonClass.Daemon.Start | src/daemon/daemon.cpp:121-146 | starts the enabled modules in order, unless the systemd flag is set |
| DaemonClass.Daemon.Shutdown | src/daemon/daemon.cpp:148-166 | clears the flag, reverses the list and stops nothing |
| DaemonClass.Daemon.LoadModule | src/daemon/daemon.cpp:168-204 | takes exactly the load step |
| DaemonClass.Daemon.UnloadModule | src/daemon/daemon.cpp:206-228 | takes exactly the unload step |
| DaemonClass.Daemon.HandleModuleDeleted | src/daemon/daemon.cpp:104-109 | takes exactly the delete step |
| DesktopId.IdIsBaseIff | src/manager/dbus/processlauncher.cpp:196-212 | the id of a desktop file is its base name iff its directory's text does not occur again in the path, save for left-overs shorter than the suffix |
| DesktopId.IdInDeepDirectory | src/manager/dbus/processlauncher.cpp:204-209 | at least two levels deep the id is the base name |
| DesktopId.IdHasNoSlash | src/manager/dbus/processlauncher.cpp:208-208 | the id never contains a slash |
| DesktopId.IdAtTopLevel | src/manager/dbus/processlauncher.cpp:205-205 | the id of /usr/usr.desktop is not usr |
| DesktopId.Id | src/manager/dbus/processlauncher.cpp:196-212 | computes IdOf step by step, and the result has no slash |

## Left out

- D-Bus message construction, service registration and reply marshalling, including the colon-separated list of what a lock inhibits: plumbing; a call is an event or an outcome.
- LogindClasses.LogindBackend.HandleSessionLocked: the constant iterator itself, whose entry is freed under it, is not modelled; a number of turns stands for the unbounded loop.
- LogindClasses.LogindBackend.UninhibitAll: the same, for the destructor's loop.
- LinkSpec.LinkRun: replies may arrive at any time, whether or not a read is in flight, so the bookkeeping of reads in flight is not modelled.
- Registry.PluginRegistry.AddPlugin: one class stands for both registries; the session manager's keeps no metadata, and only the auto-load entry of the daemon's metadata is modelled.
- SessionClass.Session.Start: module arguments, and a shutdown that arrives while a module's start runs a nested event loop, are not modelled; connecting a module's signals is implicit, since its requests arrive as calls.
- Shell.ShellPlugin.Start: the timeouts themselves, the process environment and the arguments; a shutdown request when the shell's D-Bus name is lost.
- Shell.LaunchBound: QProcess is assumed to report a start or a failed start only while starting, and a crash or an exit only while running; whether its state has already changed when a crash is reported is a parameter of the event.
- DaemonClass.Daemon.Initialize: connecting the handler of a module's deletion is implicit; a deletion arrives as a call of HandleModuleDeleted.
- LifoModules.AutostartPlugin.Start: the visibility, suitability and systemd tests of an entry are one flag, and the contents of the desktop files are external.
- DaemonSpec.DaemonRun: a deleted module's object is only taken out of the lists; the registry's reference to it, which then dangles, is not modelled.
- DesktopId.Id: takes the canonical path as given, since resolving links is the file system's work; characters are code points.
- KeyOrder compares characters as code points, where QString compares UTF-16 code units.
- Session control and device passing, seat switching, lockSession, unlockSession and setIdle requests, screen saver times and throttling: pass-through calls without state of their own.
- Process execution, systemd-run arguments, QML bindings, Unix signal plumbing, the fake backend, locale settings, command lines, logging and translations: external or without state.
