# thirtyfour, modelled and proved in Dafny

This project models the stateful parts of the thirtyfour WebDriver client and proves what they are for:
managed driver processes that are shared by sessions and end once, sessions that end once whatever races
to end them, bounded failure artifacts that cut text only between characters, action chains that mean what
their calls say, subscriber lists that lose no update, and the small languages in between (XPath string
escaping, the `#[by(..)]` options, version texts).

`dafny verify dfyconfig.toml` checks everything. Each file is one module:

- `Drivers.dfy`: the manager's registry as a step machine. The `drivers` mutex, the weak map entries, the
  strong counts, the program counter of every launch and the trace of kills and shutdown events are
  explicit; one step is one atomic action.
- `Managers.dfy`: the code over that registry, `ensure_driver`, `spawn_or_reuse` and a guard's `release`, with
  its fields updated in place and other tasks acting at every await.
- `SessionEnd.dfy`: `quit`, `leak` and the synchronous drop fallback on one shared once-cell, for any number
  of handles and concurrent calls.
- `SessionHandles.dfy`: the code of these three calls.
- `ManagedSessions.dfy`: the two composed, for any number of sessions, which gives the end-to-end order
  between sessions and their driver.
- `ManagedProgress.dfy`: what was begun can always be finished, and is after finitely many steps.
- `Processes.dfy`: one driver process as an object, with its spawn retry loop and its two ways to end.
- `Utf8.dfy`, `Artifacts.dfy`: byte lengths and character boundaries (section 3 of RFC 3629), the two
  truncations, the log buffer and the browser-log pass.
- `ActionChain.dfy`: the builder's two action lists, and tick-by-tick playback after section 17 of the W3C
  WebDriver Recommendation.
- `ActionEffects.dfy`: what each builder call, and any sequence of them, does to the page.
- `Subscribers.dfy`: the copy-on-write lists behind `Emitter` and `LogSubscribers` as a step machine of
  loads, swaps and retries.
- `Emitters.dfy`: the code that adds, drops and calls subscribers.
- `Strings.dfy`, `XPath.dfy`, `Select.dfy`: `str::split`, the escaping and an evaluator for the string
  expressions of XPath 1.0 (sections 3.7 and 4.2), and selecting options by visible text.
- `ByAttributes.dfy`: validation and conversion of `#[by(..)]` options.
- `Versions.dfy`: the version scanner, version order, Chrome and geckodriver resolution.
- `CdpSession.dfy`, `EventStreams.dfy`: the enable-once lock and the filtering streams of CDP and BiDi.

The concurrent parts (`Drivers`, `SessionEnd`, `ManagedSessions`, `Subscribers`, `CdpSession`) are step
machines: `Next` gives the state after one enabled step and `Exec` after a sequence of them, so a lemma
about `Exec(steps)` is about every interleaving of any length. The calls themselves are methods of classes
with the shared fields: each atomic action assigns fields and is proved to be one step of the machine, and
between any two of them any steps of others happen. Where nobody disturbs a call, its contract gives the whole state
it leaves as one transaction. A class is `Valid` when its fields are the state after
some run, so every lemma about runs holds at every point of the code. The sequential parts are classes and
methods with loops, each proved against a specification function, and the lemmas about that function say what
the source promises. What the outside world does (a DELETE reply, a spawn attempt, a fetched index, a
deserializer, arriving events) is a parameter.

## Where the code and its promise differ

The model follows the code. Where a promise fails on some inputs only, the exact condition is proved for all
inputs and a concrete input is given.

- `escape_string` (select.rs:44) writes one quote too many for a text with both kinds of quotes that ends in
  a double quote: `XPath.EscapeFaithfulIff`, `XPath.EscapeGainsQuote`.
- Selecting by visible text compares with the mis-escaped text, so asked for such a text it acts on an option
  whose text has one more quote and misses its own: `Select.WrongOptionChosen`. And the fallback finds nothing
  when the longest word is such a text, even if an option has exactly the text asked for:
  `Select.FallbackIsFullScanIff`, `Select.FallbackMisses`. `Select.ActsOnAskedIff` says for which texts and options
  a call acts on what was asked for, `Select.AlwaysActsOnAskedIff` for which texts it always does.
- The streams promise to skip an undecodable event with a warning, but the warning slices the event's JSON
  text at byte 200 (cdp/stream.rs:89, bidi/stream.rs:127), which panics inside a multi-byte character:
  `EventStreams.NeverPanicsIff`, `EventStreams.TwoByteCharPanics`.
- Validation lets a custom function stand beside a selector, although no conversion accepts the pair; the
  conversion then reports extra args: `ByAttributes.ValidatedSingle`, `ByAttributes.CustomBesideSelector`.
- `quit` reports an error when waiting for the killed driver fails (handle.rs:1232, process.rs:163), although the
  session has ended by then and cannot be ended again: `SessionHandles.Session.Quit` says when, in terms of the
  DELETE's reply, the reference it takes and that wait, and `SessionHandles.EndedThoughReported` is such a call.
- A drag by an offset presses and moves but never releases the button (action_chain.rs:341-354), so nothing is
  dropped: `ActionChain.OffsetDragsNeverDrop`, and `ActionChain.LeftButtonAfter` for sequences of calls.

## Model

| member | source | states |
|---|---|---|
| Drivers.StepKeepsInv | thirtyfour/src/manager/manager.rs:582-720 | every atomic step of launches, releases and drops keeps the registry invariant: counts equal the references held, a live published process is its key's entry, ids are fresh, the lock excludes, ends are announced once |
| Drivers.ReachableInv | thirtyfour/src/manager/manager.rs:665-720 | the invariant holds after every interleaving |
| Drivers.LeasesShareOneProcess | thirtyfour/src/manager/manager.rs:665-706 | in every run all leases and guards still held for one browser, version and host are on one process that was not killed, the map's entry; a lease is on a process of the key its launch asked for, so launches that asked for one key share it |
| Drivers.LeaseIsEntry | thirtyfour/src/manager/manager.rs:639-655 | a held lease is on a shared process that was not killed and that a look-up of the requested key finds |
| Drivers.KeysStand | thirtyfour/src/manager/manager.rs:671-675 | neither the key a launch asked for nor the key of a process ever changes |
| Drivers.PublishRegistered | thirtyfour/src/manager/manager.rs:708-719 | inserting after a failed re-check leaves at most one live process per key |
| Drivers.LoserNeverHandedOut | thirtyfour/src/manager/manager.rs:707-717 | the process of a launch that lost the race ends when dropped, was never published, and no lease or guard refers to it in any later state |
| Drivers.SpawningMinted | thirtyfour/src/manager/manager.rs:526-528 | a minted driver id is unused by every process and every other spawn |
| Drivers.GiveUp | thirtyfour/src/manager/manager.rs:175-186 | a held reference can always be given up, by drop or by `into_inner`, and either way the counts stay exact and the process ends at most once |
| Drivers.EveryProcessEndsOnce | thirtyfour/src/manager/process.rs:391-418 | in every run each process is killed at most once and announced at most once; it is shared iff some reference is held, announced iff it ended, and an owner by value can always end it |
| Drivers.EndedIsForever | thirtyfour/src/manager/manager.rs:677-687 | an ended process is never upgraded, reused or ended again |
| Managers.WebDriverManager.EnsureDriver | thirtyfour/src/manager/manager.rs:582-661 | whatever other tasks do between any two atomic actions, a returned lease is on a process of the requested browser, version and host that was not killed and is that key's entry, and is all the launch still holds; a launch fails only if the download or the spawn does, and then holds nothing; a call without an answer waits for a held mutex; undisturbed, the call is one transaction: it reuses the live entry of its key, or downloads, spawns and publishes under the next id |
| Managers.WebDriverManager.SpawnOrReuse | thirtyfour/src/manager/manager.rs:665-720 | the same for the check, spawn and re-check sequence: it fails only if the spawn does, and undisturbed the registry it leaves and its answer follow from the registry before |
| Managers.WebDriverManager.LookUp | thirtyfour/src/manager/manager.rs:679-686 | a look-up returns exactly the entry that upgrades, takes a reference on it and gives the mutex back |
| Managers.WebDriverManager.Publish | thirtyfour/src/manager/manager.rs:708-719 | the re-check decides: the process it finds is leased, or else the own one, and either way it is the requested key's entry, although guards are dropped meanwhile |
| Managers.WebDriverManager.Release | thirtyfour/src/manager/manager.rs:176-186 | whatever races with it, afterwards the driver the guard held has ended, with one shutdown event, or someone else still holds it; the release that takes the last reference ends the driver and always reports how waiting for its child went, and every other one succeeds; undisturbed it leaves the registry exactly as dropping the guard would |
| SessionEnd.StepKeepsInv | thirtyfour/src/session/handle.rs:1227-1344 | every step of quit, leak, clone and drop keeps the once-cell protocol's invariant |
| SessionEnd.OneSuccessfulEnd | thirtyfour/src/session/handle.rs:1227-1239 | over any mix of concurrent calls at most one DELETE succeeds or one leak succeeds, never both, and each handle makes at most one fallback attempt |
| SessionEnd.SetIsFinal | thirtyfour/src/session/handle.rs:1228-1230 | a set cell stays set the same way |
| SessionEnd.LeakSucceedsIff | thirtyfour/src/session/handle.rs:1237-1239 | leak succeeds exactly when the session was not ended, no DELETE is in flight, and no waiting quit has been assigned the permit |
| SessionEnd.GrantedAfterFailure | thirtyfour/src/session/handle.rs:1228-1230 | in every run a waiting quit is assigned the permit only after the DELETE of another call failed or was cancelled |
| SessionEnd.DropNeverRecurses | thirtyfour/src/session/handle.rs:1271-1295 | no step lengthens a drop under way or makes it try a second DELETE: the inner handle sees an initialised cell |
| SessionEnd.DropTerminates | thirtyfour/src/session/handle.rs:1319-1343 | a drop under way can always move strictly nearer to its end, or waits for another call whose DELETE is in flight or which was assigned the permit of a failed one |
| SessionEnd.DropFinishes | thirtyfour/src/session/handle.rs:1243-1343 | from any reachable state at most seven steps, each the drop's own next one, end a drop under way without a second attempt, unless it meets another call that has the permit |
| SessionEnd.FinishedAttempted | thirtyfour/src/session/handle.rs:1243-1248 | when all handles are past their drop the session was ended, leaked, or tried by each of them |
| SessionEnd.EndIsStable | thirtyfour/src/session/handle.rs:98-109 | neither the end of a session nor the end of all its handles is ever taken back |
| SessionHandles.Session.GetOrTryInit | thirtyfour/src/session/handle.rs:1228-1230 | the call ends with a set cell, or with its permit given back after its DELETE failed or was cancelled, or waits while another call has the permit; undisturbed, the cell it finds and the DELETE's reply decide which |
| SessionHandles.Session.Quit | thirtyfour/src/session/handle.rs:1227-1235 | whatever races with it: the cell is set exactly when the call got as far as the release, and such a session cannot be ended again; then, and whenever its DELETE succeeds, the call fails or is cancelled exactly if it took the driver's last reference and the wait for the killed child did; after a failed or cancelled DELETE the permit is free or another waiting call's; it reports its DELETE successful only if it was; undisturbed, the answer and everything it leaves behind follow from the inputs |
| SessionHandles.EndedThoughReported | thirtyfour/src/session/handle.rs:1228-1239 | a quit that reports a failure although its DELETE succeeded; a second one succeeds without a DELETE, and leak fails |
| SessionHandles.Session.ReleaseGuard | thirtyfour/src/session/handle.rs:1231-1234 | a release fails or is cancelled only while waiting for a driver it took the last reference of, and leaves the cell set |
| SessionHandles.Session.Leak | thirtyfour/src/session/handle.rs:1237-1239 | succeeds exactly on an uninitialised cell whose permit is free, and then no DELETE has succeeded and only the cell is set; a failure changes nothing |
| SessionHandles.Session.DropInner | thirtyfour/src/session/handle.rs:1271-1281 | the inner handle's drop returns at once, even if the fallback failed |
| SessionHandles.Session.Drop | thirtyfour/src/session/handle.rs:1243-1343 | a drop ends after at most one attempt, with none only if the session had ended, leaves a set cell if its fallback's DELETE succeeds, reports that success only if it was one, and blocks only on another call that has the permit; undisturbed, the cell, both counters and the handle afterwards follow from the inputs: a set cell stays, without a runtime nothing is tried, and a failed DELETE gives the permit back |
| ManagedSessions.StepKeepsInv | thirtyfour/src/session/handle.rs:1227-1235 | every joint step keeps both invariants and the link between guards, releases and owned processes |
| ManagedSessions.LiveSessionsShareDriver | thirtyfour/src/manager/manager.rs:535-578 | in every run the driver of a session has the key its launch asked for, and while the guards hold their references sessions that asked for one key share it, not killed and registered |
| ManagedSessions.ReachableRequested | thirtyfour/src/manager/manager.rs:539-566 | in every run every session, ended or not, is on a driver of the requested key |
| ManagedSessions.SessionsEndOnce | thirtyfour/src/session/handle.rs:1227-1240 | in every run of the whole system each session ends at most once |
| ManagedSessions.StoppedIsReleased | thirtyfour/src/manager/manager.rs:175-186 | a process that no longer runs has only sessions whose end was attempted |
| ManagedSessions.DriverOutlivesSessions | thirtyfour/src/session/handle.rs:1282-1295 | whatever step stops a driver, every session on it had its quit cell set before, or all its handles had run their fallback |
| ManagedSessions.NothingLeftRunning | thirtyfour/src/manager/manager.rs:166-186 | once all launches, quits and handles are done, every process was killed and announced exactly once |
| ManagedProgress.StepShrinks | thirtyfour/src/session/handle.rs:1227-1344 | in the whole system every step that begins no launch, clone, quit or leak strictly lessens what is left to do, whatever the replies are |
| ManagedProgress.NeverStuck | thirtyfour/src/manager/manager.rs:582-720 | no reachable state is stuck: unless every launch, quit and handle is done, a step is enabled that begins nothing |
| ManagedProgress.RunsAreFinite | thirtyfour/src/session/handle.rs:1227-1344 | from any reachable state no run that begins nothing is longer than what was left to do |
| ManagedProgress.ComesToRest | thirtyfour/src/manager/manager.rs:166-186 | every reachable state can be brought to one where every launch, quit and handle is done, each driver has ended and each was announced exactly once |
| Processes.SettledOnce | thirtyfour/src/manager/process.rs:123-134 | whatever the attempts come to, exactly one of them decides the spawn |
| Processes.PortInUseIff | thirtyfour/src/manager/process.rs:172-181 | an error names a taken port exactly if it is a spawn failure whose message has one of three phrases in it, in any case of letters |
| Processes.SettlesIff | thirtyfour/src/manager/process.rs:121-134 | the first of three attempts that does not fail over a taken port decides, or else the third |
| Processes.SpawnAtPort | thirtyfour/src/manager/process.rs:183-301 | one attempt announces its child and its readiness; a child that never gets ready is killed and its pumps are aborted, so a failure leaves nothing running |
| Processes.SpawnProcess | thirtyfour/src/manager/process.rs:115-135 | the retry loop returns the outcome of the first attempt that did not collide on a port, or of the third; a failed spawn leaves no child and no pump behind |
| Processes.ReadyOnceShutdownOnce | thirtyfour/src/manager/process.rs:273-300 | over a whole life readiness and shutdown are announced once each if the deciding attempt got ready, and not at all otherwise |
| Processes.SpawnAndEnd | thirtyfour/src/manager/process.rs:115-418 | a spawn and the end of its process, by shutdown or by the destructor, announce readiness once and the end once, or neither, and leave no child and no pump behind |
| Processes.ManagedDriverProcess.Shutdown | thirtyfour/src/manager/process.rs:157-166 | the held child is killed, the held pumps aborted, nothing else touched and the end announced once, also when waiting for the child fails |
| Processes.ManagedDriverProcess.Drop | thirtyfour/src/manager/process.rs:391-418 | the same effect as an explicit shutdown |
| Utf8.LongestPrefixIsLongest | thirtyfour/src/testing/artifacts.rs:403-412 | the prefix is within the limit, no longer one is, and at most three bytes stay unused |
| Utf8.LongestSuffixIsLongest | thirtyfour/src/testing/artifacts.rs:426-430 | the same for suffixes |
| Utf8.DownToBoundary | thirtyfour/src/testing/artifacts.rs:407-411 | stepping down to a character boundary arrives at the longest prefix |
| Utf8.UpToBoundary | thirtyfour/src/testing/artifacts.rs:426-430 | stepping up to a character boundary arrives at the longest suffix |
| Utf8.WidthIsShortest | thirtyfour/src/testing/artifacts.rs:403-412 | the byte width of a character is the length of the sequence that encodes it, which no shorter sequence does |
| Artifacts.TruncatePrefix | thirtyfour/src/testing/artifacts.rs:403-412 | returns the longest character-boundary prefix within the limit |
| Artifacts.TruncateMiddle | thirtyfour/src/testing/artifacts.rs:414-431 | returns the whole text, a prefix, or both ends around the marker, with both boundary loops in range |
| Artifacts.MiddleBounds | thirtyfour/src/testing/artifacts.rs:414-431 | the excerpt stays within the limit and is left alone by a second pass; it is the text if that fits, a longest prefix if the marker leaves no room, and otherwise disjoint ends of the text, each within its half of the payload and at most three bytes short of it |
| Artifacts.NewSourceExcerpt | thirtyfour/src/testing/artifacts.rs:119-134 | the flag says exactly whether the text was changed, and the original size is reported |
| Artifacts.LongestFittingIsLongest | thirtyfour/src/testing/artifacts.rs:348-360 | what the buffer keeps is a suffix within both limits and every longer suffix breaks one |
| Artifacts.FittingSnoc | thirtyfour/src/testing/artifacts.rs:348-353 | entries dropped before a push need never be reconsidered |
| Artifacts.RetainedSnoc | thirtyfour/src/testing/artifacts.rs:338-361 | a push turns what the limits retain of the old lines into what they retain of all lines; with a zero limit nothing is kept |
| Artifacts.RetainedMeans | thirtyfour/src/testing/artifacts.rs:338-361 | given for each pushed line its longest prefix within the entry and the total limit, with its stream and an exact flag, the buffer keeps the longest suffix of these within the count and the total |
| Artifacts.DriverProcessLogBuffer.Push | thirtyfour/src/testing/artifacts.rs:338-361 | after any pushes the buffer is what the limits retain of the lines pushed, the byte count is exact and never underflows |
| Artifacts.DriverProcessLogBuffer.Keeps | thirtyfour/src/testing/artifacts.rs:342-347 | every kept line is the longest prefix, within both byte limits, of the pushed line at its place from the end, from the same stream, flagged exactly if it was cut |
| Artifacts.BoundBrowserLogs | thirtyfour/src/testing/artifacts.rs:364-401 | the newest-first pass computes the budget-splitting specification |
| Artifacts.BoundEntryForm | thirtyfour/src/testing/artifacts.rs:371-396 | level and source keep the longest prefix within an eighth of the budget each, the message the longest within the rest; the flag is exact, the subtraction never saturates, and a cut message leaves at most three bytes unused |
| Artifacts.NewestBoundedIsNewestRun | thirtyfour/src/testing/artifacts.rs:364-401 | the result is a contiguous newest run in original order within all limits, each entry budgeted by the entry limit and what newer ones left of the total, cut short only when the count or the bytes are used up |
| ActionChain.OneSourcePerTick | thirtyfour/src/action_chain.rs:104-110 | both lists have equal length and each tick has exactly one source that is not a zero pause |
| ActionChain.DispatchIsProgram | thirtyfour/src/action_chain.rs:104-110 | playing the two lists tick by tick performs the program in order, fails where it fails, and takes the pointer delay once per move |
| ActionChain.EveryChainPlaysItsCalls | thirtyfour/src/action_chain.rs:104-110 | for every sequence of calls the two streams of its meaning play it tick by tick, in order, taking the pointer delay once per move |
| ActionEffects.Build | thirtyfour/src/action_chain.rs:57-760 | what a new chain sends after any calls plays to the end, on any page and from any state, exactly if the calls can happen one after the other, and then does just that; both lists have equal length, one source per tick is not a zero pause, and each move takes the stored delay |
| ActionChain.LeftButtonAfter | thirtyfour/src/action_chain.rs:133-760 | after any calls that play to their end the left button is down exactly if a call that holds it is not followed by one that lets it up |
| ActionChain.OffsetDragsNeverDrop | thirtyfour/src/action_chain.rs:336-354 | a single call leaves the left button down exactly if it is one of the two holds or one of the two drags by an offset |
| ActionEffects.CallDoes | thirtyfour/src/action_chain.rs:133-760 | call by call: it plays to its end exactly if the places it moves to exist and are in view, and then appends exactly its moves, presses, releases and key strokes, and leaves the pointer, the keys and the buttons as given in terms of the page's centres and the call's arguments |
| ActionEffects.CallsLead | thirtyfour/src/action_chain.rs:104-110 | the program of any sequence of calls leads from one state to another exactly if the calls happen one after the other between them |
| ActionChain.Chain.Perform | thirtyfour/src/action_chain.rs:104-110 | the lists a chain holds do what its calls mean, on every page and from every state |
| ActionChain.Chain.constructor | thirtyfour/src/action_chain.rs:57-71 | a new chain is empty and stores the delays clamped to 64 bits, 0 and 250 ms by default |
| ActionChain.Chain.ClickLeft | thirtyfour/src/action_chain.rs:133-139 | extends the program by press and release, both lists aligned |
| ActionChain.Chain.ClickOn | thirtyfour/src/action_chain.rs:162-164 | move to the element, press, release |
| ActionChain.Chain.Hold | thirtyfour/src/action_chain.rs:190-194 | press |
| ActionChain.Chain.HoldOn | thirtyfour/src/action_chain.rs:221-223 | move to the element, press |
| ActionChain.Chain.ClickRight | thirtyfour/src/action_chain.rs:246-252 | press and release of the right button |
| ActionChain.Chain.ClickRightOn | thirtyfour/src/action_chain.rs:275-277 | move to the element, right press, right release |
| ActionChain.Chain.ClickTwice | thirtyfour/src/action_chain.rs:300-307 | two presses and releases |
| ActionChain.Chain.ClickTwiceOn | thirtyfour/src/action_chain.rs:330-332 | move to the element, two presses and releases |
| ActionChain.Chain.DragOnto | thirtyfour/src/action_chain.rs:336-338 | move to the source, press, move to the target, release |
| ActionChain.Chain.DragBy | thirtyfour/src/action_chain.rs:341-343 | press, relative move, no release |
| ActionChain.Chain.DragElementBy | thirtyfour/src/action_chain.rs:347-354 | move to the element, press, relative move, no release |
| ActionChain.Chain.PressKey | thirtyfour/src/action_chain.rs:378-385 | key down |
| ActionChain.Chain.PressKeyOn | thirtyfour/src/action_chain.rs:409-414 | click the element, key down |
| ActionChain.Chain.ReleaseKey | thirtyfour/src/action_chain.rs:444-451 | key up |
| ActionChain.Chain.ReleaseKeyOn | thirtyfour/src/action_chain.rs:481-486 | click the element, key up |
| ActionChain.Chain.MoveTo | thirtyfour/src/action_chain.rs:513-517 | move relative to the viewport at the stored delay |
| ActionChain.Chain.MoveBy | thirtyfour/src/action_chain.rs:548-552 | move relative to the pointer at the stored delay |
| ActionChain.Chain.MoveToCenter | thirtyfour/src/action_chain.rs:578-582 | move to the element's centre |
| ActionChain.Chain.MoveToOffset | thirtyfour/src/action_chain.rs:620-629 | move to an offset from the element's centre |
| ActionChain.Chain.ReleaseLeft | thirtyfour/src/action_chain.rs:654-658 | release of the left button |
| ActionChain.Chain.ReleaseOn | thirtyfour/src/action_chain.rs:683-685 | move to the element, release |
| ActionChain.Chain.SendText | thirtyfour/src/action_chain.rs:716-725 | each character pressed and released in order |
| ActionChain.Chain.SendTextTo | thirtyfour/src/action_chain.rs:754-759 | click the element, then each character pressed and released |
| ActionChain.Chain.DoAll | thirtyfour/src/action_chain.rs:133-760 | any sequence of builder calls leaves the lists of the concatenated meanings |
| Subscribers.StepKeepsInv | thirtyfour/src/manager/status.rs:441-468 | every load, swap, retry and callback keeps the list equal to the replay of the successful swaps |
| Subscribers.ReplayIsLiveAdds | thirtyfour/src/manager/status.rs:443-450 | replaying the swaps leaves exactly the adds not removed, in swap order, with distinct ids |
| Subscribers.ListIsLiveAdds | thirtyfour/src/manager/status.rs:441-455 | in every interleaving the list is the completed adds whose drop has not completed |
| Subscribers.DropTakesItsOwn | thirtyfour/src/manager/status.rs:554-563 | the swap of a drop takes exactly its own entry out |
| Subscribers.NeverResurrected | thirtyfour/src/manager/status.rs:697-706 | no later state lists a removed id again, whatever adds race with the drop |
| Subscribers.RetryMeansProgress | thirtyfour/src/manager/status.rs:661-668 | a swap fails only because another one succeeded after the load |
| Subscribers.EmitCallsOneSnapshot | thirtyfour/src/manager/status.rs:457-468 | an emit calls, in order and once each, the subscribers listed at one moment |
| Subscribers.IdsNeedNotBeSorted | thirtyfour/src/manager/status.rs:659-668 | an add that minted its id first may be listed last |
| Emitters.Emitter.Rcu | thirtyfour/src/manager/status.rs:443-450 | the retry loop ends when a swap succeeds: the list is then the change applied to the list it replaced, which is what all earlier changes made; each failed swap means that another change was made, and undisturbed the first one succeeds |
| Emitters.Emitter.AddArc | thirtyfour/src/manager/status.rs:441-455 | whatever races with it, a completed add has its entry in the list, under a fresh id; it is completed unless others made as many changes as it had attempts; undisturbed it appends the entry and changes nothing else |
| Emitters.Emitter.DropSubscription | thirtyfour/src/manager/status.rs:554-563 | a completed drop leaves the id out of the list and everything else in, under the same condition |
| Emitters.Emitter.Emit | thirtyfour/src/manager/status.rs:457-468 | calls exactly the subscribers listed when it began, in order, whatever adds and drops race with it |
| XPath.Escaped | thirtyfour/src/components/select.rs:36-49 | the loop writes every piece in double quotes with a quoted quote between any two, and one more after a trailing quote |
| XPath.EscapeString | thirtyfour/src/components/select.rs:52-62 | the three-way choice of quoting computes the text that the lemmas below evaluate |
| XPath.EscapeDenotes | thirtyfour/src/components/select.rs:52-62 | for every text the escaped form evaluates to the text, or to the text and one more double quote |
| XPath.EscapeFaithfulIff | thirtyfour/src/components/select.rs:44-46 | it evaluates back to the text iff the text does not mix both quotes and end in a double one |
| XPath.EscapeGainsQuote | thirtyfour/src/components/select.rs:44-46 | a text on which it does not |
| Select.LastLongestIsLongest | thirtyfour/src/components/select.rs:65-67 | the word chosen is the last one of the greatest byte length |
| Select.LongestTokenOccurs | thirtyfour/src/components/select.rs:65-67 | the word occurs in the text and no space-free part of the text takes more bytes |
| Select.PrefilterMatchesIff | thirtyfour/src/components/select.rs:170-177 | the prefilter lets an option with the wanted text through iff the escaping of the word is faithful |
| Select.FallbackIsFullScanIff | thirtyfour/src/components/select.rs:169-187 | the fallback acts on exactly the options a full scan finds, unless the word's escaping gains a quote and such an option exists; then it finds none |
| Select.FallbackMisses | thirtyfour/src/components/select.rs:169-191 | an option whose very text is asked for and not found |
| Select.TargetsAre | thirtyfour/src/components/select.rs:152-194 | which options are acted on, for every text and every list of options |
| Select.ActsOnAskedIff | thirtyfour/src/components/select.rs:152-194 | when a call acts on exactly the options asked for, for every text and list: its text is not mistaken for another option's, finds its own options in spite of a gained quote, and does not lose the fallback |
| Select.AlwaysActsOnAskedIff | thirtyfour/src/components/select.rs:152-194 | it does so for every list of options iff the text, when normalized, gains no quote, or, when not, has no space or a longest word that gains none |
| Select.WrongOptionChosen | thirtyfour/src/components/select.rs:153-158 | asked for `'"`, a call acts on the option `'""` and does not find the option `'"` |
| Select.TargetsIncreasing | thirtyfour/src/components/select.rs:160-187 | options are acted on in document order, each at most once |
| Select.SelectElement.SetSelected | thirtyfour/src/components/select.rs:27-32 | an option is clicked only if its state differs |
| Select.SelectElement.SetSelectionByVisibleText | thirtyfour/src/components/select.rs:152-194 | all targets of a multi-select, or the first target otherwise, end in the wanted state; only differing ones are clicked; nothing else changes; it fails iff there is no target |
| ByAttributes.ByTokens.Validate | thirtyfour-macros/src/component.rs:505-525 | accepts exactly the lists with distinct and compatible types, and an error names options that really exclude each other |
| ByAttributes.ValidIff | thirtyfour-macros/src/component.rs:313-343 | which lists are accepted, option by option: at most one of a sort, not `wait` with `nowait`, `not_empty` with `allow_empty`, `single` with `first`, either of these with `multi`, `not_empty` or `allow_empty`, nor a custom function with anything but a selector |
| ByAttributes.OrderIrrelevant | thirtyfour-macros/src/component.rs:505-525 | acceptance depends only on which options there are |
| ByAttributes.ParseAttribute | thirtyfour-macros/src/component.rs:660-686 | validating after each pushed option and at the end accepts exactly what one final validation accepts |
| ByAttributes.ByTokens.TakeOne | thirtyfour-macros/src/component.rs:563-584 | the first token with a value is removed and nothing else |
| ByAttributes.ByTokens.TakeBy | thirtyfour-macros/src/component.rs:534-557 | the selectors are taken out, the others stay in order, and anything but one selector panics |
| ByAttributes.ByTokens.IntoSingle | thirtyfour-macros/src/component.rs:785-805 | the consuming conversion computes its specification |
| ByAttributes.ByTokens.IntoMulti | thirtyfour-macros/src/component.rs:899-920 | the same for multi resolvers |
| ByAttributes.SingleConsumesAll | thirtyfour-macros/src/component.rs:785-805 | a converted option value stands for every token there was, but an explicit default |
| ByAttributes.MultiConsumesAll | thirtyfour-macros/src/component.rs:899-920 | the same for multi resolvers |
| ByAttributes.ValidatedSingle | thirtyfour-macros/src/component.rs:785-805 | on a validated list the multiple-selector panic is unreachable, and exactly when it converts, panics for lack of a selector, or reports extra args |
| ByAttributes.ValidatedMulti | thirtyfour-macros/src/component.rs:899-920 | the same for multi resolvers |
| ByAttributes.BesideCustom | thirtyfour-macros/src/component.rs:318-342 | next to a custom function only a selector passes validation |
| ByAttributes.CustomBesideSelector | thirtyfour-macros/src/component.rs:327-339 | that pair is accepted by validation and refused by both conversions |
| Versions.ParseVersion | thirtyfour/src/manager/browser.rs:273-297 | the nested scan returns the first maximal digit-and-dot run that starts at a digit and holds a dot, without its trailing dots |
| Versions.ParsedUnique | thirtyfour/src/manager/browser.rs:273-297 | that result is unique |
| Versions.ParsedShape | thirtyfour/src/manager/browser.rs:300-302 | a result starts and ends with a digit and its major version is a nonempty digit string |
| Versions.VersionRecovered | thirtyfour/src/manager/browser.rs:272-297 | a dotted version after dot-free text is found unchanged, whatever follows |
| Versions.SortSemverIsTotalPreorder | thirtyfour/src/manager/download.rs:284-288 | the order is total, transitive and agrees both ways round; equivalent versions have equal numbers |
| Versions.CompareMeans | thirtyfour/src/manager/download.rs:284-288 | one version is below another exactly if their numbers first differ where its number is smaller or missing |
| Versions.ValueIsDecimal | thirtyfour/src/manager/download.rs:285-287 | the value of a digit string has each digit at its power of ten and nothing above the first |
| Versions.ParseDecimal | thirtyfour/src/manager/download.rs:285-287 | exactly the numbers below 2^32 are read back from their decimal text, with or without a plus sign |
| Versions.SortIsStable | thirtyfour/src/manager/download.rs:277 | the sort is ordered, a permutation, and keeps equivalent versions in place |
| Versions.ResolveChromeExact | thirtyfour/src/manager/download.rs:261-282 | an indexed dotted request is returned itself, otherwise the last of the sorted same-major versions |
| Versions.FallbackIsMaximum | thirtyfour/src/manager/download.rs:274-281 | that version is indexed, of the same major version, and no other one exceeds it |
| Versions.FallbackFailsIff | thirtyfour/src/manager/download.rs:278-281 | it fails iff no indexed version has the major version |
| Versions.FirstIsGreatest | thirtyfour/src/manager/download.rs:203-209 | in a table sorted downwards the first match is the greatest match |
| Versions.ReleasesDescending | thirtyfour/src/manager/download.rs:156-197 | the embedded table is sorted downwards |
| Versions.GeckodriverIsBest | thirtyfour/src/manager/download.rs:199-209 | the scan gives the greatest release supporting the Firefox version, and one exists exactly for majors from 60 up |
| Versions.ReleaseFor | thirtyfour/src/manager/download.rs:156-209 | the release chosen for each range of Firefox major versions |
| CdpSession.StepKeepsInv | thirtyfour/src/cdp/session.rs:145-157 | every begin, lock, reply and cancellation keeps the enabled set equal to the acknowledged methods |
| CdpSession.EnabledOnce | thirtyfour/src/cdp/session.rs:146-155 | in every run a method is neither sent nor acknowledged again after its acknowledgement |
| CdpSession.NoSuccessBeforeAck | thirtyfour/src/cdp/session.rs:146-156 | in every run a subscription succeeds only after the acknowledgement of the method it needs |
| CdpSession.UnackedIsRetried | thirtyfour/src/cdp/session.rs:148-153 | a subscriber that gets the lock sends the command exactly when it was not acknowledged, so failures and cancellations are tried again |
| CdpSession.OneInFlight | thirtyfour/src/cdp/session.rs:147-154 | at most one enable command is on the wire |
| CdpSession.SharedSession.EnableOnce | thirtyfour/src/cdp/session.rs:147-154 | under the lock a method is enabled by its acknowledgement only; a failed or cancelled command changes nothing |
| CdpSession.SharedSession.Subscribe | thirtyfour/src/cdp/session.rs:145-157 | whatever other subscribers do, success means the needed method was acknowledged, failure leaves it unrecorded and the lock free; undisturbed, the lock, the enabled set and the reply decide the outcome and everything sent |
| EventStreams.EventStream.PollNext | thirtyfour/src/cdp/stream.rs:64-83 | a poll takes the items up to the first that is not skipped, answers by it, terminates, and keeps the yielded items equal to the decoding of the consumed ones |
| EventStreams.EventStream.YieldsItsOwn | thirtyfour/src/cdp/stream.rs:56-79 | what a stream has yielded are exactly the decodable events among those it consumed, in order, of its name and session (typed CDP), its session (raw CDP), its name (typed BiDi), or all (raw BiDi) |
| EventStreams.AnswerMeans | thirtyfour/src/bidi/stream.rs:102-121 | in terms of the queue alone: a poll waits or ends exactly when every item is skipped, and otherwise yields or panics by the first item that is not |
| EventStreams.EveryScheduleYieldsDecoded | thirtyfour/src/cdp/stream.rs:61-84 | for every schedule of arrivals and polls nothing is lost or reordered and the polls yield exactly the decoding of the matching events |
| EventStreams.EveryScheduleYieldsItsOwn | thirtyfour/src/bidi/stream.rs:102-121 | the same after every schedule of arrivals and polls, in the events' own fields |
| EventStreams.PanicsIffConsumed | thirtyfour/src/cdp/stream.rs:73-78 | after any schedule some poll has panicked iff an accepted, undecodable event whose preview cuts a character was consumed |
| EventStreams.NeverPanicsIff | thirtyfour/src/cdp/stream.rs:86-92 | no schedule of some arrivals panics iff none of them is such an event |
| EventStreams.AsciiNeverPanics | thirtyfour/src/cdp/stream.rs:86-92 | ASCII parameters never make a poll panic |
| EventStreams.TwoByteCharPanics | thirtyfour/src/bidi/stream.rs:124-130 | a two-byte character across byte 200 of an undecodable event makes the poll panic |

## Left out

- Drivers.StepKeepsInv: an atomic action is a lock acquisition, a look-up or insertion under the lock, or one reference-count update; memory order and lock poisoning are not captured.
- Drivers.EveryProcessEndsOnce: speaks of the child handle the manager holds, which it takes and kills; a driver that exits by itself keeps its entry and is reused, as in the source, and nothing is said about it answering.
- Managers.WebDriverManager.EnsureDriver: a call that has to wait for the mutex longer than the given steps of others last returns as waiting, because who holds the mutex is theirs to decide; the same goes for the other calls that wait.
- Emitters.Emitter.Rcu: gives up after a number of failed swaps, because contention need not end; each failure means that another update succeeded.
- Drivers.LeasesShareOneProcess: assumes the documented contracts of `Arc`, `Weak` and the async mutex as atomic steps; the driver id counter is unbounded.
- SessionEnd.DropTerminates: does not claim that another call's DELETE ever gets a reply, which is the network's to decide, or that a call assigned the permit runs again, which is its owner's.
- ManagedProgress.NeverStuck: counts a reply to a DELETE, the end of a download or a spawn and the drop of a handle as steps that can happen; whether they do is up to the outside.
- SessionEnd.StepKeepsInv: a returned permit may go to any waiting call or to none, which includes what the first-come queue of the semaphore does; the queue itself is not modelled.
- ManagedSessions.DriverOutlivesSessions: leaves out a launch cancelled after its session exists but before its guard does; that session has no handle to end it.
- Processes.SpawnProcess: leaves out a spawn that is cancelled while waiting for readiness; the child then dies with its handle and its pump tasks are not aborted.
- Select.SelectElement.SetSelectionByVisibleText: assumes that an option's rendered text is its XPath string-value and that commands succeed; disabled options are not modelled.
- XPath.EscapeDenotes: the evaluator covers string literals and `concat` of literals, which is all the escaping writes.
- Versions.SortIsStable: the library's `sort_by` is modelled by its contract on values, not in place.
- ActionChain.DispatchIsProgram: a tick ends when its actions do; wall-clock interpolation of moves is not modelled.
- EventStreams.EventStream.PollNext: one class stands for the four stream types by its filter, since they differ only in it; how the broadcast channel drops old items is a notice in the queue.
- The `local_versions` cache, `set_config` and `set_poller`, `run_and_quit`: one-branch or finite facts.
- HTTP, WebSocket, subprocess, filesystem, archive and JSON decoding: parameters or nondeterministic steps.
- The download cache across processes: its first existence check is outside the file lock, so nothing is claimed about it.
- The BiDi transport's subscription refcount, the element query and poller, capabilities and command formatting: not part of this model.
- `SessionEnded` events, status formatting and tracing output.
