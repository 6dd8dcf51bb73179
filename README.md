# MemSlap decision engine in Dafny

MemSlap is a background service that watches the memory use of running
processes and "slaps" those that exceed a configured limit. It either sends them
a signal at once or first asks the user through a desktop notification. This
project models the decision engine, `lib/engine.js`, and proves properties of it.

The engine's parts and how the model represents them:

- **Monitors.** A monitor is one configured rule: a memory limit in bytes,
  optional name and path patterns that admit or exclude processes, a signal,
  and the prompt, snooze and action settings. `reloadConfig` turns each list
  of patterns into a single alternation `(a)|(b)|…` and defaults the signal to
  `SIGTERM` (`Rules`).
- **Snapshot.** Once a minute the engine takes a snapshot of every process.
  Each record is normalised in place:
  - memory becomes `memRss * 1024` bytes;
  - the path becomes the directory joined with the executable name;
  - a process inside an application bundle (`…/Name.app/Contents…`) is renamed
    to the bundle's name.

  Then a rollup pass adds each bundle root's children's memory into the root,
  also in place (`Snapshot`).
- **Snooze ledger.** A table from pid to an expiry time in seconds. It is
  purged at the start of every tick. A process is exempt while `now < expiry`
  (`Snooze`).
- **Selection.** Every enabled monitor, in configured order, filters the
  snapshot. A record is selected when all of these hold:
  - its pid is not 0;
  - its memory is above the limit;
  - it passes the four pattern tests;
  - it is not actively snoozed.

  There is no deduplication across monitors (`Selection`).
- **Engine and confirmation.** Each selected record is slapped (`Engine`):
  - A monitor without a prompt kills the process at once. `killProcess` sends
    the signal and deletes the pid's ledger entry.
  - A monitor with a prompt sends a notification whose callback `finish`
    resolves it exactly once, guarded by a `finished` flag. A backup timer
    calls `finish` with `timeout` one second after the prompt's 15-second
    timeout.
  - The activation type decides the outcome: kill, snooze, or nothing.

The engine is a `class Engine` whose fields are the compiled monitors, the
ledger and an appended log of outside effects:

- `Signalled(pid, signal)` stands for `process.kill`;
- `Prompted(pid)` stands for a notification sent.

Each prompt is a `class Confirmation` with its own `finished` and `timerArmed`
state. The snapshot is an `array<Proc>` that `Normalize` and `Rollup` rewrite
in place.

Each imperative method is proved against a specification function:

- `Normalize` against `NormalizedAll`;
- `Rollup` against `Rolled`;
- `Purge` against `Purged`;
- `Check` and `SlapOffenders` against `SlapAll` of `Select`;
- `Finish` against `Deliver`.

Lemmas then state what those functions mean:

- membership in a selection;
- the order in which offenders are taken;
- exactly-once resolution of a confirmation;
- the one event per offender that a tick appends;
- the rollup's depth.

The rollup in the code is not "one level only". For each bundle root, in list
order, it adds the memory that each child holds *at that moment*. A child that
is itself a bundle root, and that is listed earlier, has already received its
own children's memory. So a grandchild's memory can reach the grandparent
(`RollupReachesGrandchild`). A root that is its own parent also doubles its
running total. The model follows the code. `RollupOneLevel` states the
conditions under which the total is exactly the root's own memory plus its
direct children's memory.

## Model

| member | source | states |
|---|---|---|
| Rules.Compile | lib/engine.js:49-59 | the signal is never empty: an unset one becomes `SIGTERM`; an absent pattern list stays absent and a present one becomes the alternation text: each alternative in parentheses, joined by the alternation bar; the memory limit, absent or numeric, and every other setting are kept |
| Rules.AlternationIsUnionOfGroups | lib/engine.js:52 | the compiled text of a non-empty list is each alternative wrapped as a group, the groups joined by the alternation bar (a statement about the pattern's text only) |
| Engine.Engine.constructor | lib/engine.js:28-40 | the engine starts with an empty ledger and no effects, and with the configured monitors compiled in order |
| Engine.Engine.ReloadConfig | lib/engine.js:44-60 | the monitors become the configured entries compiled one by one, same count, same order |
| Snapshot.JoinPath | lib/engine.js:79 | `Path.join` of a directory and a name: one separator between them, an empty part dropped, and `.` for two empty parts; its shape is stated by `JoinPathShape` |
| Snapshot.JoinPathShape | lib/engine.js:79 | the joined path starts with the directory and ends with the name; when both are given, exactly one `/` separates them, and a separator is added only when the directory does not already end in one |
| Snapshot.BundleStem | lib/engine.js:82-83 | the scan for the first match of the bundle-name pattern, and its capture; `BundleStemIsLeftmostMatch` relates it to the pattern |
| Snapshot.BundleStemIsLeftmostMatch | lib/engine.js:82-83 | the bundle name is the capture of the leftmost match of `/([^/]+?)\.app/Contents`; no name exactly when the pattern matches nowhere |
| Snapshot.BundleStemIsComponent | lib/engine.js:82-83 | a captured bundle name is non-empty and holds no `/` |
| Snapshot.Normalized | lib/engine.js:78-79 | a normalised record keeps its pid, parent pid and `memRss`, has `mem = memRss * 1024`, and has the joined path |
| Snapshot.NormalizedName | lib/engine.js:81-84 | a record whose joined path lies in a bundle takes the bundle's name; any other record keeps its own name |
| Snapshot.Normalize | lib/engine.js:77-85 | after the pass, the array holds every original record normalised, at its original index |
| Snapshot.RollupUpToFrame | lib/engine.js:88-93 | the rollup changes nothing but memory totals, and only those of bundle roots the outer loop has reached; later records are untouched |
| Snapshot.Rollup | lib/engine.js:88-93 | the in-place double loop leaves the array equal to the order-sensitive specification `Rolled` of its old contents |
| Snapshot.RollupSettled | lib/engine.js:88-93 | once the outer loop has passed an index, that record never changes again |
| Snapshot.RollupFinalMem | lib/engine.js:88-93 | a bundle root ends holding its memory plus its children's memory as it stood when the outer loop reached the root |
| Snapshot.RollupOneLevel | lib/engine.js:88-93 | for a root that is not its own parent and has no bundle-root child listed before it, the total is its own memory plus exactly its direct children's memory |
| Snapshot.IsBundleRoot | lib/engine.js:89 | the rollup pattern `^(.+\.app/Contents).+$`: the marker with at least one character on each side, and no line terminator anywhere |
| Snapshot.MarkedPathIsRoot | lib/engine.js:89 | a path with at least one character before and after `.app/Contents` and no line terminator matches the rollup pattern |
| Snapshot.RollupReachesGrandchild | lib/engine.js:88-93 | a child root listed before its parent carries a grandchild's memory into the grandparent (100 + 10 + 1 = 111) |
| Snapshot.ChromeHelperStem | lib/engine.js:79-84 | a helper in `/Apps/Chrome.app/Contents/MacOS` is given the bundle name `Chrome` |
| Snapshot.ChromeHelperNormalized | lib/engine.js:77-84 | that helper's record is renamed `Chrome` and 1171875 KiB become 1200000000 bytes |
| Snapshot.RolledSingleton | lib/engine.js:88-93 | a one-record snapshot whose record is not its own parent is left unchanged by the rollup |
| Snooze.ActivelySnoozed | lib/engine.js:105 | the exemption test: the pid has an entry and `now` is strictly before its expiry |
| Snooze.Purged | lib/engine.js:70-72 | the purged ledger keeps exactly the entries with `now <= expiry`, with their expiry unchanged |
| Snooze.PurgeKeepsActiveEntries | lib/engine.js:70-72 | purging never changes whether a pid is exempt at the same instant |
| Snooze.SnoozeWindow | lib/engine.js:70-72 | after a snooze set to `start + time`, the entry survives a purge while `now <= start + time`; the pid is exempt (the test at line 105) only while `now < start + time` |
| Engine.Engine.Purge | lib/engine.js:70-72 | the ledger after the loop equals `Purged` of the old ledger |
| Selection.Eligible | lib/engine.js:99-109 | the filter callback: pid not 0, memory above a numeric limit, each present pattern admitting or rejecting, and not actively snoozed |
| Selection.Offenders | lib/engine.js:98 | `procs.filter` with that callback; never longer than the snapshot; its members and order are stated by `OffendersMembers` and `OffendersConcat` |
| Selection.OffendersMembers | lib/engine.js:98-110 | a record is an offender of a monitor exactly when it is in the snapshot, has a pid other than 0 and memory above `max_mem` (any memory when the limit is absent or not a number), passes the match and exclude patterns present, and is not actively snoozed |
| Selection.OffendersConcat | lib/engine.js:98 | the filter keeps snapshot order: it distributes over concatenation |
| Selection.OffendersDependOnActiveSnoozes | lib/engine.js:105-108 | the filter depends on the ledger only through which pids are exempt at `now` |
| Selection.MonitorOffenders | lib/engine.js:96-98 | a disabled monitor contributes nothing; an enabled one contributes its offenders, each paired with it |
| Selection.MonitorOffendersMembers | lib/engine.js:95-110 | a monitor contributes a pair exactly when it is enabled and the record is one of its offenders |
| Selection.Select | lib/engine.js:95-117 | the pairs of a tick, monitor by monitor in configured order; stated by `SelectMembers` and `SelectConcat` |
| Selection.SelectMembers | lib/engine.js:95-117 | a (record, monitor) pair is selected in a tick exactly when the monitor is configured and enabled and the record is its offender; a record breaking several monitors is selected once for each |
| Selection.SelectConcat | lib/engine.js:95 | monitors are visited in configured order: selection distributes over concatenation of the monitor list |
| Engine.KillState | lib/engine.js:197-203 | the state after `killProcess`: one signal event appended, that pid's ledger entry deleted |
| Engine.Engine.Kill | lib/engine.js:197-203 | exactly one `Signalled(pid, signal)` event is appended, and only that pid's ledger entry is removed |
| Engine.Engine.Slap | lib/engine.js:121-146 | a monitor without a prompt kills at once and starts nothing; a monitor with a prompt appends a prompt event and returns a new confirmation that is pending, with its backup timer armed |
| Engine.SlapState | lib/engine.js:127-143 | `slap` on the state: a kill without a prompt, a prompt event otherwise |
| Engine.SlapAll | lib/engine.js:112-114 | slapping a list of offenders in order; its closed form is `SlapAllOutcome` |
| Engine.SlapAllOutcome | lib/engine.js:112-114 | slapping a list of offenders appends one event per offender in order (a signal without a prompt, a prompt with one) and removes from the ledger exactly the pids signalled |
| Engine.Engine.SlapEach | lib/engine.js:112-114 | slapping one monitor's offenders in order yields `SlapAll` of them, changes no pid's exemption, and starts one pending confirmation per prompted offender, in order |
| Engine.Engine.CheckMonitor | lib/engine.js:95-114 | a disabled monitor changes nothing; an enabled one slaps exactly its offenders against the purged ledger |
| Engine.Engine.SlapOffenders | lib/engine.js:95-117 | the monitors loop leaves the state at `SlapAll` of `Select` over all monitors, judged against the ledger at the start of the loop, and returns the confirmations of the prompted pairs in order |
| Engine.Engine.Check | lib/engine.js:62-119 | a tick purges the ledger, leaves the snapshot normalised and rolled up, and ends with `SlapAll` of the selected pairs, with one pending confirmation per prompted pair |
| Engine.SnoozeState | lib/engine.js:165-168 | the snooze branch: with a snooze time set, the pid's entry becomes `now + snooze_time`; otherwise nothing changes (also lines 181-184) |
| Engine.Dispatch | lib/engine.js:155-186 | a dispatched activation appends at most one signal for this pid and touches no other pid's ledger entry |
| Engine.DispatchOutcomes | lib/engine.js:155-186 | `actionClicked` kills; `closed` snoozes for `snooze_time`; `contentsClicked` kills only with `click_action == 'kill'`; `timeout` kills with `timeout_action == 'kill'` and otherwise snoozes; every other case leaves the state unchanged |
| Engine.Deliver | lib/engine.js:148-153 | one call of `finish`: ignored without an activation type or once finished, otherwise the confirmation is claimed, its timer cleared and the activation dispatched |
| Engine.FinishedIsFinal | lib/engine.js:151 | once a confirmation is finished, any further deliveries change nothing |
| Engine.ExactlyOnce | lib/engine.js:148-194 | whatever deliveries reach a pending confirmation, in any order, including the backup timer's `timeout`, the outcome is the dispatch of the first one that carries an activation type (or nothing when none does), and at most one signal is sent |
| Engine.FirstClaim | lib/engine.js:149-152 | the claiming delivery is the first one with an activation type; all deliveries before it have none |
| Engine.Confirmation.constructor | lib/engine.js:145-146 | a new confirmation is not finished and its timer is armed: the flag of lines 145-146 together with the backup timer that `slap` sets at lines 192-194 |
| Engine.Confirmation.Finish | lib/engine.js:148-187 | the confirmation and the engine change exactly as `Deliver` says; a call without an activation type, or after finishing, changes nothing |
| Engine.Confirmation.FireTimer | lib/engine.js:192-194 | the backup timer is a `finish` with activation type `timeout` |
| Engine.BackupTimeout | lib/engine.js:124 | the backup timer's call carries `timeout` and fires 15 + 1 = 16 seconds after the prompt (lines 192-194) |
| Engine.BackupTimerResolves | lib/engine.js:192-194 | a prompt that nobody answers is resolved by the backup timer: the outcome is the `timeout` dispatch at 16 seconds after the prompt, a signal when `timeout_action` is `kill` |
| Engine.ChromeHelperIsKilled | lib/engine.js:77-131 | end to end: with a monitor matching `Chrome` above 10^9 bytes and no prompt, a 1.2 GB Chrome helper is renamed, selected, and sent `SIGKILL` at once |

## Left out

- Enumerating processes (`si.processes`) is I/O. The snapshot is the `procs` array passed to `Check`.
- The clock (`Tools.timeNow`) is the `now` parameter of each call.
- Logging is left out.
- The icon lookup (`getAppIcon`) is left out.
- Sound is left out.
- The notification text and `Tools.getTextFromBytes` are left out. A prompt is recorded only as a `Prompted(pid)` event.
- The notification that `killProcess` sends after a kill, when `notify` is set, is left out. It changes no engine state.
- Engine.Engine.Kill: the model assumes every signal is delivered. `process.kill` can throw (ESRCH for a process that exited after the snapshot, EPERM for another user's process), and the source does not catch it: the ledger entry is then not deleted, and inside `finish` the confirmation stays finished with its timer cleared.
- Engine.Engine.Check: assumes every signal is delivered. A throwing `process.kill` in the source leaves `offenders.forEach` and `monitors.forEach`, so every later offender and monitor of that tick is skipped; the model slaps every selected pair. Nothing in `check` or `slap` catches the exception.
- Engine.Engine.SlapOffenders: the same assumption; the abort of the rest of the tick after a failed kill is not captured.
- The configured regular expressions are abstract: `matches(pattern, text)` stands for `text.match(new RegExp(pattern))`, so regular-expression semantics are not modelled. The two fixed patterns (the bundle name and the bundle root) are modelled exactly.
- Snapshot.JoinPathShape: `Path.join` also collapses `.` and `..` segments and repeated separators, including the doubled one at the join when the name starts with `/`. The model joins with a single separator only and keeps a trailing separator, as `Path.join` does; two empty parts give `.` as in `Path.join`.
- Rules.Compile: configured strings such as `"1 GB"` for `max_mem` and `"1 hour"` for `snooze_time` are taken as already parsed to integers. `Tools.getBytesFromText` and `Tools.getSecondsFromText` are not part of this model.
- Rules.Compile: JavaScript falsy values are written out. An empty `signal` means unset, and a `snooze_time` of 0 means no snooze. A pattern key holding something other than a list is not modelled. An absent or non-numeric `max_mem` is modelled as no limit (None).
- Engine.Engine.ReloadConfig: `new RegExp` throws on an invalid alternative, which aborts `reloadConfig` part-way with earlier monitors compiled and later ones left raw; the model takes every alternative as valid and compiles every monitor.
- Rules.AlternationIsUnionOfGroups: states the text of the compiled pattern only. That it matches exactly when one alternative does is not proved, and is false in general: wrapping alternatives in groups renumbers backreferences such as `\1`, and an alternative with unbalanced parentheses changes the group structure.
- Engine.Engine.ReloadConfig: the source rewrites the configured objects in place. The model instead builds a new sequence of compiled monitors, so aliasing with the configuration store is not captured.
- Re-running `reloadConfig` on objects that are already compiled is not modelled. The source reloads the configuration from its file first.
- The minute event, the reload and error events, `startup`'s icon path and shutdown are left out. The constructor stands for `startup`.
- Concurrency and real timers are not modelled. The notifier's callback and the backup timer are explicit calls to `Finish` and `FireTimer`. The deliveries that reach one confirmation are a sequence in `ExactlyOnce`. Clearing the timer is the `timerArmed` flag.
- Engine.Engine.SlapEach, Engine.Engine.CheckMonitor, Engine.Engine.SlapOffenders and Engine.Engine.Check do not state that the confirmations they return are newly allocated. Only `Engine.Engine.Slap` does.
- The asynchronous gap between the purge and the `si.processes` callback is not modelled. `Check` runs the whole tick as one step.
- `monitors` is read again inside `check`; the model uses the engine's compiled monitors.
