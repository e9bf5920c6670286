# Session beacon: verified model

The daemon of this repository keeps one record per coding session, moves it between ten states
as hook events arrive and time passes, and shows the most urgent sessions on a small display.
This project models the daemon's logic in Dafny 4.11 and proves what the documentation promises
about it, over every run. `dafny verify dfyconfig.toml` checks the whole project.

## How it is laid out

| file | models |
|---|---|
| `Machine.dfy` | one session as a value: every transition, every timer, and runs over timed inputs |
| `Invariants.dfy` | the bookkeeping every run keeps, the attention ladder, the recorded process |
| `Ticks.dfy` | deadlines, idempotence and coalescing of ticks, and what silence alone leads to |
| `Phases.dfy` | which state each kind of event begins, and until when it lasts |
| `Attention.dfy` | direct asks, held notifications, and who may end a wait |
| `Askers.dfy` | whom an alarm is put down to, and who may therefore end it |
| `Shown.dfy` | what a session shows about itself, and what softens its alarms |
| `Liveness.dfy` | a finished turn always reaches the alarm in time, and how loud that alarm is |
| `Background.dfy` | what the background lists count |
| `Product.dfy` | the whole store as a map, and its refinement of independent machines |
| `Selection.dfy` | which session a request to forget names, watched sessions, shortened labels |
| `Store.dfy` | the imperative store: records updated in place, held in a dictionary |
| `Snapshot.dfy` | the order of the display and the totals |
| `Downtime.dfy` | what any schedule of ticks makes of one session, in closed form |
| `Persist.dfy`, `Restart.dfy` | saving, loading, and what a restart can and cannot be seen by |
| `Lines.dfy`, `Link.dfy`, `Serial.dfy` | line reassembly, reconnecting, heartbeats, and the link object that does them |
| `Capture.dfy`, `Paths.dfy`, `Redact.dfy` | redaction of captured payloads, and of the paths in them |
| `ProcWatch.dfy` | finding the process behind a session, and the liveness poll |

The code that updates objects is modelled by classes and loops (`Store`, `Persist`, `Serial`,
`Redact`, `ProcWatch`). Each such method is proved equal to a function on values, and the
properties are proved about those functions. A store is what a list of timed inputs makes of it;
ending a session on request (`forget`) is the input `Exited` for the session the key names.

## Assumptions

- The clock never runs backwards and is never negative. Times are real numbers.
- Where a lemma requires `Sane`, every threshold is at least zero. Where a deadline is promised
  (`Patient`), the ghost cutoff is at least each single window plus the gap between ticks.
- A process that the daemon resolves has a PID other than 0 (`RealProcs`), which stands for
  "unknown" in a record.
- The label of a directory, the decoding and parsing of a device line, and `os.path.basename` are
  parameters. `Paths.Lawful` says what is relied on for the last one; it is proved of both the
  POSIX and the Windows rule.
- The restore cutoff is the store's ghost cutoff, as in `host/src/beacon_host/main.py:170` and `:182`.

## What turned out to be false, and exactly when

- "Only the agent that raised a prompt can end the wait" (`docs/architecture.md`) fails in two ways.
  A second agent that asks while the row already waits is not recorded, so the tools of the first
  one paint the row WORKING with the second prompt still open (`Attention.SecondAskIsLost`). A
  direct ask stands until its own agent is answered exactly when nobody else was being waited for
  (`Attention.AskStandsExactly`). And a subagent that stops ends the wait of another agent when
  the turn was already over and no other subagent runs (`Attention.StrangerCanEndWait`).
  `Attention.OnlyTheAskerAnswers` gives every input that ends the wait of the recorded asker, as an
  equivalence.
- "Content is removed, not recorded" (`capture.py`): content that starts with `<` and ends with `>`
  is taken for a marker and recorded word for word, so a prompt such as `<b>...</b>` is, and a
  `tool_input` that is not an object is recorded whole (`Redact.MarkupPromptIsRecorded`,
  `Capture.MarkupIsRecorded`). `Redact.LeaksExactly` and `Capture.KeptVerbatimExactly` say
  exactly when a value is kept; what is not kept leaks its kind and length alone
  (`Redact.ContentIsInvisible`, `Redact.RedactTellsOnlyShape`).
- Redacting twice is redacting once exactly when every path in the payload has a last segment
  (`Redact.RedactIdempotent`). In closed form, on POSIX when some character of the path, pairs of
  backslashes read as slashes, is not a slash (`Paths.PosixRedactsOnce`); on Windows when
  something follows the drive and does not end in a backslash (`Paths.WindowsRedactsOnce`). It fails
  at `""` (`Paths.EmptyPathChanges`) and on Windows at `C:\a\` (`Paths.TrailingBackslashChanges`).
- The comment in `capture.py` says separators are normalised before the path is cut. The code
  replaces pairs of backslashes only. On POSIX the path is cut to its last segment exactly when
  every backslash left has a slash after it (`Paths.PosixCutsExactly`; a path of single
  backslashes is kept whole, `Paths.PosixKeepsSingleBackslashes`). On Windows it is exactly when
  the path, where it names anything, does not end in a backslash and a drive has a separator
  after it (`Paths.WindowsCutsExactly`; `Paths.WindowsLosesTheName` is an input where the name goes).
- "A session that has been waiting three hours across a restart should still read three hours"
  (`persist.py`) holds on the attention ladder (`Restart.RestartInvisible`), not below it. A
  NEEDS_LOOK row, or a live one off the ladder with nothing held and nothing in the background, shows
  the same state and age exactly when no tick of the downtime would have found its timer overdue
  (`Restart.RestartAgesExactly`); at `Restart.DowntimeIsSeen` it is ten seconds younger.
- A restart is not invisible off the alarm: a turn that ended on a subagent goes IDLE without a
  restart and STALE with one (`Restart.RestartTurnsIdleStale`). `Restart.RestartSeenExactly` says
  when the same first tick after the save shows the same state in both, as an equivalence.
- So a finished turn can be silenced across a restart: that row is never on the ladder again, where
  the daemon that stayed up has it there by the deadline (`Restart.RestartSilencesTurn`). After a
  restart ticks alone raise the alarm exactly when the saved session was on it, IDLE, or held a
  notification, and the first tick finds it within the ghost cutoff (`Restart.RestartAlarmsInTime`;
  `Restart.RestartAlarmsExactly` for any schedule of ticks).
- The state diagram in `docs/architecture.md` ends a session on process exit from STALE only; the
  code does so from every state, and the model follows the code.

## Model

| member | source | states |
|---|---|---|
| Invariants.RunKeepsInv | host/src/beacon_host/state.py:170-312 | on every run from any sound session: `turn_over` only with subagents outstanding, counts never negative, `state_since <= last_event <= clock`, `bg_seen <= clock`, and no rung reached before its threshold |
| Invariants.TickKeepsInv | host/src/beacon_host/state.py:441-517 | a tick keeps that bookkeeping, or drops the session |
| Invariants.ReceiveKeepsInv | host/src/beacon_host/state.py:183-312 | an event keeps that bookkeeping, and gives it to a session it creates |
| Invariants.DispatchMoves | host/src/beacon_host/state.py:203-312 | every event renews `last_event`, stamps `state_since` exactly when the state changes, never moves a session between two rungs, and leaves the process alone |
| Invariants.TickOpens | host/src/beacon_host/state.py:456-474 | what retiring a count and releasing a held notification may do: no count outlives its evidence, nothing stays held without a count, a released notification is on display, and a row already on display keeps its place |
| Invariants.TickSettlesLadder | host/src/beacon_host/state.py:508-517 | one tick puts a waiting session on the rung its waiting time alone decides |
| Invariants.StepStampsEntry | host/src/beacon_host/state.py:341-360 | entering the family stamps the entry, and no repeat restamps it |
| Invariants.StateSinceIsEntry | host/src/beacon_host/state.py:111-115 | on every run `state_since` of a waiting session is when it last entered the family, read off the run alone |
| Invariants.LadderIsElapsedTime | host/src/beacon_host/state.py:501-517 | after every tick of every run the rung is a function of the time since that entry |
| Invariants.RecordedOwner | host/src/beacon_host/state.py:187-189 | on every run, drops and re-creations included, the recorded process is that of the last SessionStart since the session was last created that carried one, else of the first event that did |
| Invariants.LabelFollowsDirectory | host/src/beacon_host/state.py:567-578 | on every run a session is labelled by the last directory any of its inputs named since it was last created |
| Ticks.NothingOverdue | host/src/beacon_host/state.py:441-517 | after a tick no timer of any session has run out: grace, ghost, quiet, stale, idle, look, starting and both rungs |
| Ticks.TimelyIsFixed | host/src/beacon_host/state.py:441-517 | a tick leaves a session untouched exactly when none of its timers has run out |
| Ticks.TickIdempotent | host/src/beacon_host/state.py:441-517 | a second tick at the same instant does nothing, to dropped sessions included |
| Ticks.TicksCoalesce | host/src/beacon_host/state.py:509-512 | for a waiting session with nothing held, an earlier tick adds nothing to a later one |
| Ticks.TickDescends | host/src/beacon_host/state.py:441-517 | a tick that changes the state delivers the held notification or lowers the state's rank |
| Ticks.SilenceSettles | host/src/beacon_host/state.py:441-517 | a session nobody hears from changes state at most `Potential` times, so silence has no cycle |
| Ticks.SilenceRemoves | host/src/beacon_host/state.py:449-454 | a session nobody hears from is gone within a bound computed from the thresholds and the tick gap |
| Phases.RestsExactly | host/src/beacon_host/state.py:441-500 | left alone, a session off the display stays in its state exactly until a tick that finds its time, its last count behind a finished turn, or the hold on a notification run out, and never comes back to it |
| Phases.StartWaitsForWork | host/src/beacon_host/state.py:203-205 | from a SessionStart on, left alone, the row is STARTING exactly until a tick later than `idle_stale_s` or one that delivers a notification held from before, and with none held only goes STALE |
| Phases.StatusMakesStarting | host/src/beacon_host/state.py:567-578 | a session first heard of through its status line is STARTING on the same terms |
| Phases.FailureShows | host/src/beacon_host/state.py:288-292 | from a StopFailure on, left alone, the row is ERROR with its error type, exactly until a tick that delivers a notification held from before |
| Phases.StopHandsOver | host/src/beacon_host/state.py:263-277 | from a Stop that lists no subagent on, left alone, the row is IDLE exactly until a tick later than `idle_prompt_s` or one that delivers what was held |
| Phases.StopGoesOn | host/src/beacon_host/state.py:263-277 | from one that lists subagents on, left alone, it is WORKING exactly until a tick later than `bg_quiet_s` or `stale_after_s` |
| Phases.OutKeepsWorking | host/src/beacon_host/state.py:278-302 | while subagents work and stop, with or without lists, and ticks find the session heard of in time, it is WORKING with the count of those still out |
| Phases.LastSubagentHandsOver | host/src/beacon_host/state.py:296-302 | the stop that leaves none out, and no other, makes it IDLE, at that moment |
| Phases.EndShows | host/src/beacon_host/state.py:293-294 | from a SessionEnd on, in silence, the row is there and ENDED exactly until a tick later than the grace period |
| Phases.EndedIsGone | host/src/beacon_host/state.py:445-448 | it is gone one tick gap after that |
| Phases.EndsOnce | host/src/beacon_host/state.py:403-414 | an exit ends the session from any state, and a second one changes nothing |
| Phases.WorksWhileHeard | host/src/beacon_host/state.py:206-227 | from a prompt, or a tool event that answers whoever was waited for, through everything that goes on at work, the row is WORKING while no tick comes later than `stale_after_s` after its last event |
| Phases.SilentWorkGoesStale | host/src/beacon_host/state.py:476-479 | a tick after that finds it WORKING or makes it STALE exactly by that bound |
| Askers.AskerIsRecorded | host/src/beacon_host/state.py:341-386 | on every run the agent recorded for a session on display is the one read off the run: the sender of the ask or idle_prompt that brought it there, the agent whose held notification a tick delivered, or the main thread where a timer did |
| Askers.HoldNamesItsAgent | host/src/beacon_host/state.py:244-258 | on every run a held notification belongs to the agent of the last idle_prompt that came while subagents were outstanding |
| Askers.ToolEventResumesExactly | host/src/beacon_host/state.py:314-339 | on every run a tool event makes the row WORKING exactly when nobody waits or that agent sent it; after an idle alarm, the main thread |
| Askers.NudgeNeverLost | host/src/beacon_host/state.py:244-260 | an idle_prompt is shown at once exactly when no subagent is outstanding or the row was on display; else it is held, and shown or held still along any run that neither supersedes it nor drops the session |
| Shown.NamedExists | host/src/beacon_host/state.py:567-578 | a session exists after any event or status line that names it, and not before the first |
| Shown.ShowsTheNewest | host/src/beacon_host/state.py:187-227 | on every run the tool, model, cost, context figure, mode and error shown are what the newest input of the session that speaks of each said, since its creation |
| Shown.BatchNamesLast | host/src/beacon_host/state.py:633-646 | the tool of a batch is that of the last call that has a name |
| Shown.OthersAreTheNewest | host/src/beacon_host/state.py:263-295 | on every run the untracked work is that of the newest list, none after a prompt |
| Shown.SoftExactlyWhenOthersListed | host/src/beacon_host/state.py:362-386 | on every run, what brings a session onto the display without asking outright does so softly exactly when that list had other work in flight |
| Attention.AskStandsUntilAnswered | host/src/beacon_host/state.py:228-262 | after any direct ask the session is on the ladder over every run without an answer to the recorded asker, on the rung of the time since it entered, and the recorded asker is the one that asked exactly when nobody else was being waited for |
| Attention.AskStandsExactly | host/src/beacon_host/state.py:353-360 | the ask stays on display over every run that does not answer its own agent exactly when nobody else was being waited for |
| Attention.SecondAskIsLost | host/src/beacon_host/state.py:314-360 | an input where it does not: two agents ask, and one batch of the first one's tools takes the row to WORKING |
| Liveness.StopDecidesHowLoud | host/src/beacon_host/state.py:362-386 | while the session idles after a Stop, one that listed no untracked work never turns it NEEDS_LOOK; one that listed some keeps it off the ladder, unless a human is asked outright, until a soft alarm has run for `look_s` |
| Attention.LoudUntilWorkIsListed | host/src/beacon_host/state.py:206-211 | after a prompt, until an event lists work in flight, over every run the session carries no count, holds nothing back, is never NEEDS_LOOK, and an idle_prompt puts it on the ladder at once |
| Attention.HeldNeverLost | host/src/beacon_host/state.py:244-258 | on every step a held notification stays held, is superseded, or is on display, and a tick past the quiet window delivers it |
| Attention.HeldUntilShown | host/src/beacon_host/state.py:460-474 | along any run that neither supersedes it nor drops the session, the notification is still held or was displayed |
| Attention.OnlyTheAskerAnswers | host/src/beacon_host/state.py:314-360 | one input ends a wait exactly when it is on the list of answers; otherwise place, age and asker stay, the rung only descends, and `last_event` becomes that input's time exactly when it is a hook of the session or delivers what it held |
| Attention.WaitSurvives | host/src/beacon_host/state.py:212-239 | the same over whole runs that hold no answer, `last_event` being the newest of those events |
| Attention.DispatchWaits | host/src/beacon_host/state.py:203-312 | which hooks end a wait, as an equivalence, and that all others only renew `last_event` |
| Attention.StrangerCanEndWait | host/src/beacon_host/state.py:296-300 | from nothing: a Stop that lists one subagent, a permission request of the main thread, and the stop of that subagent end in IDLE |
| Liveness.NeverSilenced | host/src/beacon_host/state.py:263-277 | after a Stop with any background list, whatever notifications of the main thread, permission requests and status lines follow, the session is on the ladder by the deadline |
| Liveness.ForksDoNotPostpone | host/src/beacon_host/state.py:121-129 | when the Stop lists no running subagent, later SubagentStops with any list postpone nothing and the quiet window does not count |
| Liveness.TickIsOnTime | host/src/beacon_host/state.py:476-500 | a tick at most the gap late either starts the alarm or leaves each phase on time, and never drops the session |
| Background.CountsAreSizes | host/src/beacon_host/state.py:672-732 | the two counts are the numbers of listed tasks, wherever they stand, that are running, pending or of no status, not the excluded agent, and subagents, or of any kind but those and the three that never end; a malformed list counts none |
| Background.TasksCountedOnce | host/src/beacon_host/state.py:672-732 | every task in flight is in exactly one of the sets of subagents, of other work, and of kinds that never end |
| Background.ExcludingDropsOneAgent | host/src/beacon_host/state.py:694-705 | excluding an agent takes exactly the live entries with its id out of both counts |
| Product.StepIsLocal | host/src/beacon_host/state.py:170-191 | one step does to a session what that session's own machine does, and nothing to any other |
| Product.StoreIsProduct | host/src/beacon_host/state.py:441-454 | looking a session up after any trace is running its own machine on the trace, through deletion and re-creation |
| Product.OwnInputsSuffice | host/src/beacon_host/state.py:567-578 | only the ticks and the inputs that name a session matter to it |
| Product.SameViewsSameStore | host/src/beacon_host/state.py:170-191 | traces that look alike to every session leave equal stores |
| Product.DifferentSessionsCommute | host/src/beacon_host/state.py:388-414 | inputs of different sessions commute |
| Product.TickAllIdempotent | host/src/beacon_host/state.py:441-454 | two ticks of the whole store at one instant are one |
| Product.ReachableInv | host/src/beacon_host/state.py:567-578 | every session of every reachable store is filed under its own non-empty id with its bookkeeping in order |
| Selection.HitsAreLive | host/src/beacon_host/state.py:428-431 | the candidates are exactly the live sessions whose id starts with a key of four characters or more, or if there is none those whose full or shortened label it is; an empty key names nobody |
| Selection.ForgetNeedsOneMatch | host/src/beacon_host/state.py:416-434 | a key ends a session exactly when it singles out one live session, by id prefix if any matches, else by label |
| Selection.WatchedAreLive | host/src/beacon_host/state.py:436-439 | asked about are exactly the sessions with a known process that have not ended |
| Selection.ElideKeepsBothEnds | host/src/beacon_host/state.py:735-746 | a label over 16 characters is its first nine, two dots and its last five, and two cut labels are equal exactly when both ends are |
| Store.Session.SetState | host/src/beacon_host/state.py:111-115 | updates the record in place to the value `Machine.SetState` gives |
| Store.SessionStore.GetOrCreate | host/src/beacon_host/state.py:567-578 | creates or finds the record, relabels it when its directory moved, touches no other, and appends a new key last |
| Store.SessionStore.Activity | host/src/beacon_host/state.py:314-339 | updates the record to `Machine.Activity` |
| Store.SessionStore.WantAttention | host/src/beacon_host/state.py:341-360 | updates the record to `Machine.WantAttention` |
| Store.SessionStore.IdlePrompt | host/src/beacon_host/state.py:362-386 | updates the record to `Machine.IdlePrompt` |
| Store.SessionStore.ApplyEvent | host/src/beacon_host/state.py:170-312 | the store after an event is `Product.Step` of the store before, with a new session last in the dictionary |
| Store.SessionStore.ApplyStatus | host/src/beacon_host/state.py:388-399 | the same for a status line |
| Store.SessionStore.ProcessGone | host/src/beacon_host/state.py:403-414 | ends the session, and answers whether there was a live one to end |
| Store.SessionStore.Forget | host/src/beacon_host/state.py:416-434 | returns the candidates and ends the session when there is exactly one |
| Store.SessionStore.Watched | host/src/beacon_host/state.py:436-439 | the live sessions whose process is known |
| Store.SessionStore.Tick | host/src/beacon_host/state.py:441-517 | the loop over the dictionary, which deletes while it runs, is `Product.TickAll`, and keeps the order of what stays |
| Snapshot.SortedIsStable | host/src/beacon_host/state.py:522 | the rows are a permutation of all sessions, strictly increasing by priority, then age, then dictionary order |
| Snapshot.StableSortUnique | host/src/beacon_host/state.py:522 | any rearrangement with that property is the same sequence |
| Snapshot.ShownAreUrgent | host/src/beacon_host/state.py:46-56 | a shown session is ranked before every hidden one in the order of the states from NEEDS_INPUT to ENDED, or is in the same state for at least as long |
| Snapshot.TotalsCoverAll | host/src/beacon_host/state.py:521-534 | the count, the selection and the cost total cover the hidden sessions too |
| Snapshot.CostIsTheSum | host/src/beacon_host/state.py:524-534 | the total is additive, each session adding its own cost or nothing |
| Persist.ParseStateName | host/src/beacon_host/state.py:16-26 | every state name written is read back as that state |
| Persist.NamesAreThese | host/src/beacon_host/state.py:16-26 | the ten names, and that reading knows no other |
| Persist.SavesInOrder | host/src/beacon_host/persist.py:66-83 | each session that has not ended is one row, in the order of the sessions |
| Persist.FileIsTrustedExactly | host/src/beacon_host/persist.py:122-171 | a one-row file adds a session exactly when it is of format 1, not from before a reboot, and the row has an id, a known state and a recent enough event |
| Persist.EarlierRowsWin | host/src/beacon_host/persist.py:158-161 | of two rows with one id the first counts |
| Persist.BareRowRestores | host/src/beacon_host/persist.py:172-182 | what a row with nothing but id and state restores |
| Persist.Save | host/src/beacon_host/persist.py:66-83 | the loop writes every session that has not ended, in dictionary order |
| Persist.NewSession | host/src/beacon_host/persist.py:172-182 | a restored record holds the saved members, and defaults where one is missing |
| Persist.Load | host/src/beacon_host/persist.py:122-189 | the loop restores what `LoadFile` says, adds the ids in the order of the rows, and returns how many sessions that added |
| Restart.SavedRestores | host/src/beacon_host/persist.py:58-63 | saving and restoring one session loses its background bookkeeping and nothing else |
| Restart.RoundTrip | host/src/beacon_host/persist.py:122-189 | loading a saved store restores exactly the sessions that have not ended and that a tick at that instant would keep, and none after a reboot |
| Restart.ForgettingKeepsInv | host/src/beacon_host/persist.py:44-47 | a restored session has its bookkeeping in order, so every run invariant holds after a restart too |
| Restart.LoadNeverOverwrites | host/src/beacon_host/persist.py:158-161 | a session the store already knows is never touched by loading, whatever the file holds |
| Restart.Relaunch | host/src/beacon_host/main.py:179-183 | a daemon started from the file of another holds exactly its survivors, in the order they had, and none after a reboot |
| Downtime.LadderOverTicks | host/src/beacon_host/state.py:509-512 | over any ticks a session on the ladder is on the rung of its elapsed time with its age kept, and with nothing held it is dropped exactly by the ghost cutoff |
| Downtime.OneTimerOverTicks | host/src/beacon_host/state.py:476-507 | over any ticks a NEEDS_LOOK session, or one with nothing held and nothing in the background, stays put until the first tick that finds its timer overdue, and is on the ladder or STALE from that tick on |
| Downtime.OneTimerDropped | host/src/beacon_host/state.py:449-454 | with nothing held it is dropped exactly when the ghost cutoff has passed since its last event, or since the tick that moved it |
| Downtime.AlarmsExactly | host/src/beacon_host/state.py:460-507 | ticks alone bring a session with nothing in the background onto the ladder exactly under `Reaches`: found in time by the first tick, and waiting already, holding a notification, or with a timer that leads there and is found overdue before the cutoff |
| Downtime.DowntimeDecides | host/src/beacon_host/persist.py:12-17 | two schedules that differ by the ticks of a downtime first pass a deadline together exactly when no downtime tick passed it |
| Restart.RestartKeepsExactly | host/src/beacon_host/state.py:449-454 | whether each store keeps such a session without a hold, as an equivalence for each: the same in both where no downtime tick found its timer overdue |
| Restart.HeldComesBackRed | host/src/beacon_host/persist.py:49-53 | save, load and tick once: a session with a notification held off display is there exactly within the ghost cutoff, and is then NEEDS_INPUT since that tick |
| Restart.RestartInvisible | host/src/beacon_host/persist.py:12-17 | over whole stores, one daemon ticking on through the downtime and one that loads its file later: at the same instant a session on the ladder shows the same state with the same age, and with nothing held is in both or in neither |
| Restart.RestartAgesExactly | host/src/beacon_host/persist.py:12-17 | a session with one timer shows the same state and age in both exactly when no tick of the downtime found that timer overdue |
| Restart.DowntimeIsSeen | host/src/beacon_host/persist.py:12-17 | an input where it does not: ticks at 11 and 21 against one at 21, `look_s` 10 |
| Restart.RestartSeenExactly | host/src/beacon_host/persist.py:44-47 | the same first tick after the save shows the same state with and without a restart exactly when `Unseen` |
| Restart.RestartTurnsIdleStale | host/src/beacon_host/persist.py:44-47 | an input where it does not: from an empty store a Stop with one subagent, then save, load and a late tick end in STALE, and without the restart in IDLE |
| Restart.RestartSilencesTurn | host/src/beacon_host/persist.py:44-47 | the same turn over every run of ticks: on the ladder by the deadline without the restart, never on it with one |
| Restart.RestartAlarmsExactly | host/src/beacon_host/persist.py:44-53 | over every run of ticks a saved session is on the ladder at some tick after the restart exactly under `Reaches` |
| Restart.RestartAlarmsInTime | host/src/beacon_host/persist.py:44-53 | with ticks often and long enough, exactly when the first finds it within the ghost cutoff and it was saved on the alarm, IDLE, or with a notification held |
| Lines.SplitJoins | host/src/beacon_host/serial_link.py:266-270 | splitting loses nothing and finds every newline: no line holds one, and joined with newlines the lines and the rest are the bytes |
| Lines.ReassemblyRefinesSplit | host/src/beacon_host/serial_link.py:263-271 | for any cutting into reads, one line per newline of this connection's bytes, each an end of the true line, whole or at least RX_MAX long; the buffer is the last RX_MAX bytes of the true rest |
| Lines.ChunkingInvisible | host/src/beacon_host/serial_link.py:253-258 | when lines are at most RX_MAX long they come out exactly, whatever the cutting |
| Link.SendMeansWritten | host/src/beacon_host/serial_link.py:240-251 | true exactly when the write succeeds on a port that is open or can be opened and greeted now; then the line is the last one written in full, after the hello, and otherwise no port is open |
| Link.AttemptsAreSpaced | host/src/beacon_host/serial_link.py:193-238 | over every run, attempts to open keep RECONNECT_S apart, and REFUSED_RETRY_S after a refused hello |
| Link.OpenExactly | host/src/beacon_host/serial_link.py:193-279 | over every run the open port is the one that an attempt in time opened and greeted, until a failed write, a failed read or a close |
| Link.RefusalIsRemembered | host/src/beacon_host/serial_link.py:222-238 | over every run the link remembers whether the latest port opened refused the hello |
| Link.BufferIsOneConnections | host/src/beacon_host/serial_link.py:217-221 | over every run the line buffer belongs to the current connection alone |
| Link.HandedAreTheLines | host/src/beacon_host/serial_link.py:267-277 | over every run of opens, sends, reads and failures, what is handed out since the port opened is one line per newline received since then |
| Link.CheckIsEdgeTriggered | host/src/beacon_host/serial_link.py:135-165 | a check is ok exactly while the last sign of life is young enough, and is logged exactly on the edges of silence |
| Link.ComparedWithLatest | host/src/beacon_host/serial_link.py:105-133 | over every run a heartbeat tells of a reboot or a self-cure exactly against the latest one before it, across reconnects |
| Serial.DeviceHealth.OnLine | host/src/beacon_host/serial_link.py:105-133 | records a heartbeat, and reports a reboot or a self-cure against the one before, across reconnects |
| Serial.DeviceHealth.Check | host/src/beacon_host/serial_link.py:144-165 | the monitor's state, verdict and log line are those of `Link.Check` |
| Serial.SerialLink.EnsureOpen | host/src/beacon_host/serial_link.py:193-238 | the mutual recursion with `Send` ends, and leaves the link as `Link.EnsureOpen` says |
| Serial.SerialLink.Send | host/src/beacon_host/serial_link.py:240-251 | writes only to an open port, and leaves the link as `Link.Send` says |
| Serial.TextsAreTheNonBlank | host/src/beacon_host/serial_link.py:271-277 | what is handed out is every non-blank line once, decoded, in the order it came |
| Serial.HearingNotesLast | host/src/beacon_host/serial_link.py:105-133 | the last heartbeat among the lines is noted with the time, and without one nothing changes |
| Serial.PollDoes | host/src/beacon_host/serial_link.py:253-279 | the two together, and that a board heard on an open port is judged well for any positive timeout |
| Serial.SerialLink.Poll | host/src/beacon_host/serial_link.py:253-279 | the loop hands out exactly the non-blank complete lines in order, notes the last heartbeat among them, and then judges; a board heard is judged well |
| Capture.ShapeTextTellsShape | host/src/beacon_host/capture.py:43-50 | the marker texts of two values are equal exactly when kind and length are |
| Capture.MarkerTellsShape | host/src/beacon_host/capture.py:43-50 | the markers of two unredacted values are equal exactly when kind and length are |
| Capture.MarkersAreBracketed | host/src/beacon_host/capture.py:36-40 | taken for a marker is exactly the text between angle brackets |
| Capture.KeptVerbatimExactly | host/src/beacon_host/capture.py:36-50 | content is kept word for word exactly when it is marker-shaped, and is otherwise the text of its shape |
| Capture.MarkupIsRecorded | host/src/beacon_host/capture.py:36-40 | markup is recorded whole, at the top and as the command line of a background task |
| Capture.MarkersRead | host/src/beacon_host/capture.py:43-50 | how the markers read: `<str len=6>`, `<list len=2>`, `<dict len=0>`, `<NoneType>` |
| Capture.DecimalReads | host/src/beacon_host/capture.py:46-49 | the length in a marker reads back as the length, without leading zeros |
| Capture.NestedIsClean | host/src/beacon_host/capture.py:77-99 | every member named as content, in the list of the top level or that of nested keys, and every tool argument, is a marker at every depth |
| Capture.NestedContentIsHidden | host/src/beacon_host/capture.py:68-95 | a `tool_response` inside a call and a `prompt` inside a schedule are recorded by their shape |
| Capture.CleanIsFixed | host/src/beacon_host/capture.py:36-40 | what is already clean is left exactly as it is |
| Capture.NestedKeepsSkeleton | host/src/beacon_host/capture.py:77-99 | keys, their order and list lengths survive, and each content leaf is recorded as the text of its shape, or as itself exactly when it was marker-shaped |
| Capture.NestedTells | host/src/beacon_host/capture.py:77-99 | two structured values redact alike exactly when they are equal outside content and each content leaf is equal, unmarked of the same kind and length, or the spelled-out marker of the other |
| Redact.RedactTellsOnlyShape | host/src/beacon_host/capture.py:102-125 | two payloads redact to the same record exactly when they are equal outside content, tool arguments and directories, and those are alike in that sense |
| Redact.ContentIsInvisible | host/src/beacon_host/capture.py:7-12 | payloads that differ only in unmarked content of one kind and length, at any covered depth, leave the same record |
| Redact.LeaksExactly | host/src/beacon_host/capture.py:111-118 | a content field is recorded as it came exactly when it is marker-shaped, a `tool_input` exactly when it is not an object or holds only marker-shaped values |
| Redact.MarkupPromptIsRecorded | host/src/beacon_host/capture.py:111-118 | inputs where content is recorded: a prompt in markup, and a textual `tool_input` |
| Redact.RecordHolds | host/src/beacon_host/capture.py:102-125 | every content field holds the text of its shape, or itself exactly when it was marker-shaped; structured fields and tool arguments keep their skeleton with such leaves; no path keeps a directory before a slash |
| Redact.PathsAreNamed | host/src/beacon_host/capture.py:119 | the members redacted as paths are those named `..._path` or `..._dir` |
| Paths.PathRedactsOnce | host/src/beacon_host/capture.py:119-122 | under any lawful base name, a path redacts once exactly when its last segment is not empty |
| Paths.PosixRedactsOnce | host/src/beacon_host/capture.py:119-122 | on POSIX exactly when some character, pairs of backslashes read as slashes, is not a slash |
| Paths.WindowsRedactsOnce | host/src/beacon_host/capture.py:119-122 | on Windows exactly when something follows the drive and does not end in a backslash |
| Paths.EmptyPathChanges | host/src/beacon_host/capture.py:119-122 | an input where it does not, on either platform: the empty path |
| Paths.TrailingBackslashChanges | host/src/beacon_host/capture.py:119-122 | an input where it does not on Windows: a directory with a trailing backslash |
| Redact.RedactIdempotent | host/src/beacon_host/capture.py:102-125 | redacting twice is redacting once exactly when every path in the payload names something |
| Paths.PosixKeepsSingleBackslashes | host/src/beacon_host/capture.py:120-122 | on POSIX a path written with single backslashes is kept whole |
| Paths.LastSegmentOfNormal | host/src/beacon_host/capture.py:120-122 | reading pairs of backslashes as slashes and trimming does not change the last segment of either separator |
| Paths.PosixCutsExactly | host/src/beacon_host/capture.py:105-122 | on POSIX every path is cut to its last segment of either separator exactly when each backslash left has a slash after it |
| Paths.PosixKeepsTheDirectory | host/src/beacon_host/capture.py:105-122 | an input where it is not: the directory stays in the record |
| Paths.WindowsCutsExactly | host/src/beacon_host/capture.py:105-122 | the same on Windows, exactly by its last character and its drive |
| Paths.WindowsLosesTheName | host/src/beacon_host/capture.py:105-122 | an input where it is not: nothing of the name is left |
| Redact.RedactNestedValue | host/src/beacon_host/capture.py:77-99 | the recursive loops compute `Capture.RedactNested` |
| Redact.RedactAll | host/src/beacon_host/capture.py:102-125 | the loop over the payload computes `RedactPayload` |
| ProcWatch.FindOwner | host/src/beacon_host/procwatch.py:221-246 | the loop with its moving child and chain computes the recursive walk |
| ProcWatch.WalkIsNearest | host/src/beacon_host/procwatch.py:210-217 | the walk names a process, its creation time and the images on the way exactly when it is the nearest session image above the hook, within eight steps, along a chain in which no parent is younger than its child |
| ProcWatch.GoneIsCertain | host/src/beacon_host/procwatch.py:134-164 | "gone" is never said of a running process, and exactly when it is said otherwise |
| ProcWatch.PollLiveness | host/src/beacon_host/main.py:240-248 | the poll ends exactly the watched sessions whose process is certainly gone |
| ProcWatch.PollsAreInvisible | host/src/beacon_host/procwatch.py:16-21 | along any history of inputs and polls, each poll against its own process table, a session whose process ran at every poll is exactly what its inputs alone make of it |
| ProcWatch.KilledSessionGoes | host/src/beacon_host/main.py:240-248 | after one fully answered poll of a dead process, a session nobody hears from has left the store once the grace period and one tick gap are over, whatever other sessions and later polls do |

## Left out

- Rate limits, model names and context percentages: clamping and shortening of single values, taken as already computed.
- The rows' formatting in a snapshot (8-character ids, integer ages, rounded cost) and `background_report`, which are read-only text.
- Label resolution by walking up to `.git`, which reads the file system: the label is a function of the directory.
- JSON text, temporary files and `os.replace` in saving, and rows whose members have the wrong JSON type when loading: a file is unreadable or a list of typed rows.
- `str.strip` on a forget key: the key is taken as already stripped.
- Payload members of unexpected JSON type, other than a background list or entry that is not one and entry fields that are null, numbers or booleans. A list or an object as the `type` or `status` of an entry raises `TypeError` (host/src/beacon_host/state.py:697-703 and 725-731) and is not modelled.
- Rounding of floating-point times and costs: both are real numbers.
- Log wording, the `_warned` flag, host name and message encoding of the link; a written line is a byte string.
- The Windows process, TCP and handle calls: the process table, creation times and answers about a PID are values, and an answer is `Honest` about the system it describes.
- The text of `<path>` redaction under a Windows network-share prefix; `Paths.WindowsBasename` knows separators and drive letters, and the lemmas hold of any lawful rule.
- The HTTP server, the queue, configuration, command line and the firmware.
- The label a saved file brings back, which is kept until the directory changes: `Invariants.LabelFollowsDirectory` speaks of runs from an empty store.
- Restart.RestartInvisible: with a notification held it speaks while both copies exist, because releasing it renews `last_event` at different ticks.
- Restart.RestartSeenExactly: compares one tick. Schedules with a downtime are compared for sessions with one timer and on the ladder; with a count outstanding or a hold off the alarm, what the daemon without the restart makes of its downtime ticks is left out.
- Serial.SerialLink.EnsureOpen: the log level that depends on `_refused` is not modelled, the flag itself is.
