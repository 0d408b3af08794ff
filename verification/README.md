# Workshop progress tracker — a Dafny model

This project models the progress-state core of `WorkshopProgressTracker`, the
browser dashboard that tracks five troubleshooting scenarios of a Kubernetes
workshop. The tracker keeps a map from scenario name to a record
`{total, completed, status, startTime}` and a `workshopStartTime`. It merges
saved state from local storage onto built-in defaults. It then changes records
through a simulated status check, a guarded "start", and a 10-second tick that
re-checks running scenarios. It also derives the overview figures.

The model is functional. The state is an immutable `Session`. Each operation
is a pure function that returns an `Effect`. An effect holds the new state,
the record written to storage (if any) and the suggested shell command shown
to the user (if any). The outside world becomes parameters:

- Each random draw becomes a caller-supplied roll `u` with `0 <= u < 1`.
  Scaling a draw by `n` and rounding down becomes `Draws.Pick(u, n)`, which
  computes `floor(u * n)` on exact reals.
- `Date.now()` becomes an integer `now`.
- `localStorage.getItem` followed by `JSON.parse` becomes a `Persistence.Stored`
  value. It is `Missing` for no entry or the empty (falsy) string. It is
  `Malformed` when anything in the `try` block throws. Otherwise it is
  `Parsed(data)`, and any field of `data` may be absent.
- `Object.keys` order becomes a sequence `keys` that lists each name of the
  map exactly once.

Modules:

- `Scenarios` holds the data model, the built-in defaults, JavaScript
  truthiness of a start time (`IsSet`: `null` and `0` are falsy) and the record
  invariant `Consistent`: `0 < total`, `0 <= completed <= total`, and
  `completed` status only at the total.
- `Draws` holds the random draws.
- `Commands` holds the suggested commands and their parsers.
- `Persistence` holds save, load and initialisation.
- `Tracker` holds the transitions.
- `Aggregate` holds the overview arithmetic.

Points where the code may surprise a reader:

- Loading merges whole entries. A saved record replaces the default record of
  the same name entirely; fields are not merged one by one (script.js:32).
- Saved names that are not built in are kept. They count toward the total
  number of scenarios, which is the number of keys and not a fixed five
  (script.js:156).
- A saved `workshopStartTime` of `0` is falsy, so it is replaced by the load
  time (script.js:33).
- `checkScenarioStatus` stamps `startTime` when the old value is falsy. That
  includes a start time of `0`, not only `null` (script.js:97).

## Model

| member | source | states |
|---|---|---|
| Scenarios.NewSession | progress-portal/script.js:5-13 | The constructor's state has exactly the five built-in names. Each record is pending, with 0 completed, no start time and its fixed total. Every record is consistent, and the start time is the current time. |
| Scenarios.DefaultTotal | progress-portal/script.js:6-10 | Each built-in scenario has a positive fixed total (5, 3, 2, 4 and 2); the default map is built from these totals. |
| Draws.Pick | progress-portal/script.js:104 | The result is the floor of `u * n`: it lies in `[0, n)` for a positive `n` and is 0 for `n = 0`. |
| Draws.PickReachesEvery | progress-portal/script.js:104 | Every index below `n` is produced by some roll, so no progress value is unreachable. |
| Draws.DrawStatus | progress-portal/script.js:91-92 | The roll selects the `k`-th of pending, running, completed and failed exactly when it lies in `[k/4, (k+1)/4)`. |
| Draws.DrawStatusReachesEvery | progress-portal/script.js:91-92 | Each of pending, running, completed and failed can be drawn. |
| Commands.RunCommand | progress-portal/script.js:211 | The start command is `./scenario-manager.sh run `, then the scenario name, then ` inject`. |
| Commands.StatusCommand | progress-portal/script.js:217 | The status command is `./scenario-manager.sh status `, then the scenario name. |
| Commands.RunCommandRoundTrip | progress-portal/script.js:211 | The start command `./scenario-manager.sh run <name> inject` parses back to exactly its scenario name. |
| Commands.StatusCommandRoundTrip | progress-portal/script.js:217 | The status command `./scenario-manager.sh status <name>` parses back to exactly its scenario name. |
| Commands.CommandsInjective | progress-portal/script.js:211-217 | Different scenarios get different run commands and different status commands. |
| Persistence.Save | progress-portal/script.js:40-47 | The written record carries the scenario map and `workshopStartTime` as held, and the save time as `lastUpdated`. |
| Persistence.Load | progress-portal/script.js:27-38 | A missing or unparseable entry leaves the state unchanged. A parsed entry gives the union of the old and saved names. Saved records win whole, other records are kept, and a falsy saved start time becomes `now`. |
| Persistence.Init | progress-portal/script.js:5-33 | After construction and loading, every built-in name is present. |
| Persistence.InitWithoutSavedState | progress-portal/script.js:28-37 | With no usable saved entry, initialisation yields exactly the five defaults and the current time. |
| Persistence.InitMerge | progress-portal/script.js:6-32 | A built-in name absent from the save keeps its default record (pending, 0, fixed total, no start time). A saved name takes its saved record. The names are exactly the built-in ones plus the saved ones. |
| Persistence.InitKeepsUnknownNames | progress-portal/script.js:32 | A saved name that is not built in survives loading, so more than five scenarios are then tracked. |
| Persistence.SaveLoadRoundTrip | progress-portal/script.js:32-46 | Saving a state that holds every built-in name and a non-zero start time, then loading it onto a fresh tracker, reproduces that state exactly. |
| Persistence.SaveLoadZeroStartTime | progress-portal/script.js:33 | A saved start time of 0 does not survive the round trip: the load time replaces it. |
| Persistence.LoadPreservesConsistency | progress-portal/script.js:32 | Loading consistent saved records onto consistent records keeps every record consistent. |
| Tracker.CheckEntry | progress-portal/script.js:91-105 | The drawn status becomes the status and the total never changes. A drawn completed sets completed to the total. A drawn running sets completed to the value the progress roll picks below the total, which lies in `[0, total)`. A drawn pending or failed leaves completed alone. The start time changes only for a drawn running over an unset start time, and then becomes `now`. |
| Tracker.CheckEntryReachesEveryProgress | progress-portal/script.js:103-104 | For a positive total, every progress value in `[0, total)` comes out of some running draw. |
| Tracker.CheckEntryPreservesConsistency | progress-portal/script.js:95-105 | Whatever is drawn, a consistent record stays consistent. |
| Tracker.CheckScenarioStatus | progress-portal/script.js:83-110 | A name that is not a key of the map is a no-op with no write. For a key, its record is updated by `CheckEntry` with the draw, every other record and `workshopStartTime` are unchanged, and the new state is saved. |
| Tracker.CheckPreservesConsistency | progress-portal/script.js:87-105 | A status check keeps every record of the map consistent. |
| Tracker.StartScenario | progress-portal/script.js:202-212 | Only a pending scenario starts. It becomes running, its start time is overwritten with `now` and its progress is untouched; the state is saved and the run command is shown. Any other status, or an unknown name, is a no-op. |
| Tracker.StartTwice | progress-portal/script.js:202-206 | A second start right after the first is a no-op, so the scenario stays running and keeps the first start time. |
| Tracker.StartPreservesConsistency | progress-portal/script.js:204-206 | Starting keeps every record consistent. |
| Tracker.CheckStatus | progress-portal/script.js:215-218 | A status request performs the full check, with its new state and its storage write (the state is saved for a known name), and always shows the status command, even for an unknown name. An unknown name changes nothing and writes nothing. |
| Tracker.TickFrom | progress-portal/script.js:193-197 | The tick's walk over the names never adds or removes a name. |
| Tracker.TickFromUntouched | progress-portal/script.js:193-197 | A record whose name the walk does not visit keeps its value. |
| Tracker.TickFromPointwise | progress-portal/script.js:193-197 | Walking distinct names in order, each listed running record is re-checked exactly once with its own draw, and each listed non-running record is left unchanged. |
| Tracker.Tick | progress-portal/script.js:192-198 | The tick re-checks exactly the records that were running and leaves every other record as it was. It writes the final state to storage if and only if some scenario was running. |
| Tracker.TickPreservesConsistency | progress-portal/script.js:192-198 | A tick keeps every record consistent. |
| Aggregate.CountCompleted | progress-portal/script.js:157 | The filter-and-count never exceeds the number of names walked, and is 0 when none of them is completed. |
| Aggregate.CountCompletedIsCardinality | progress-portal/script.js:157 | Over distinct names, the count equals the number of distinct completed names among them. |
| Aggregate.EnumerationCounts | progress-portal/script.js:156-157 | Over an enumeration of the map's keys, the key count is the map's size and the count is the number of completed records. |
| Aggregate.Percent | progress-portal/script.js:158 | The percentage satisfies `percent * total = completed * 100` and lies in `[0, 100]` whenever `completed <= total`. It is absent (JavaScript `NaN`) exactly when there are no scenarios. |
| Aggregate.MinutesSince | progress-portal/script.js:168 | The elapsed minutes are the largest `m` with `m * 60000 <= now - workshopStartTime`. |
| Aggregate.Overview | progress-portal/script.js:155-168 | The total is the number of keys and the completed count is the number of completed records, never more than the total. The percent and the minutes are as stated above. |
| Aggregate.TwoOfFiveIsForty | progress-portal/script.js:156-158 | Five scenarios with two completed give exactly 40 percent. |

## Left out

- Rendering is left out because it is presentation only. This covers `updateScenarioDisplay`, `updateDisplay`, status icons and labels, progress-bar widths and the `lastUpdated` text from `toLocaleTimeString` (script.js:112-153, 171-180).
- `showCommand` is left out because it is browser UI and I/O. It builds the notification, removes it after five seconds and copies to the clipboard. The model keeps only the command string it is given.
- `toggleCommands`, the CSS keyframes and the global `DOMContentLoaded` and `visibilitychange` handlers are left out as browser plumbing. The `beforeunload` handler only calls `saveProgress`, which `Persistence.Save` models.
- `checkClusterStatus` and `simulateClusterCheck` are left out. They are a one-second delay plus random draws that feed only the connectivity indicator, never the scenario state.
- The timers (`setInterval` every 30 and 10 seconds) are left out. `Tracker.Tick` models one firing of the 10-second timer. The 30-second timer only re-runs the cluster check and the overview.
- JSON and `localStorage` internals are left out. A stored entry is already classified as missing, malformed or parsed. Parsed values are assumed to have the record shape: values of the wrong JSON type, non-object `scenarios` and unknown status strings are not modelled.
- Floating point is left out. Rolls, `Pick` and `Percent` are computed on exact reals, so rounding in `Math.random() * n` and in the percentage is not modelled.
- Persistence.Init passes the same `now` both to the constructor's `Date.now()` and to the fallback in `loadProgress`. The source reads the clock twice, a few instructions apart.
- Tracker.CheckScenarioStatus treats a name as unknown when it is not a key of the map. In the source the lookup also finds names inherited from the object prototype (`toString`, `constructor`, `__proto__`). For such a name the check writes the fields onto a built-in object and saves. That behaviour is not modelled. Tracker.StartScenario and Tracker.CheckStatus use the same lookup, but for start it is harmless: an inherited value has no `pending` status.
- Tracker.Tick saves once, with a single `now`. In the source each re-checked running scenario saves the whole state and reads the clock for its own start stamp and `lastUpdated`. So a tick with k running scenarios writes k times and reads the clock between k and 2k times: once per save, and once more for each start time it stamps. Only the last write survives, and it holds the same final map; its `lastUpdated`, and any start times stamped during the tick, may differ by the milliseconds between those reads.
- Persistence.Save and every read of storage are assumed to succeed. In the source the write in `saveProgress` has no `try`, so a failing write (quota exceeded, storage blocked) throws out of it. `startScenario` then keeps the running record and its new start time but never shows the run command. `checkScenarioStatus` keeps the changed record and ends without a stored write. Each check in a tick runs to its failed save, and the tick goes on: the check is `async`, so its failure becomes a rejected promise rather than an exception in the walk. The read in `loadProgress` also sits outside the `try`, so a throwing read stops construction. None of these failure outcomes is modelled.
- Tracker.CheckScenarioStatus and Tracker.StartScenario use one `now` both for the start time they stamp and for the `lastUpdated` of the record they save. The source reads the clock separately for each. So the model's written `lastUpdated` equals a start time stamped in the same call, which the source does not promise: the two may differ by the milliseconds between the reads.
- Persistence.Load drops the warning the source logs to the console when the saved entry cannot be parsed. It is diagnostic output only and does not change the state.
- `checkScenarioStatus` is declared `async` but contains no `await`, so it runs to completion. No interleaving is modelled.
