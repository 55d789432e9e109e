# ServiceMonitorApp: the monitoring and alerting core

ServiceMonitorApp is a desktop tool that watches Windows services, processes,
CPU, RAM and disk usage, and sends mails when something changes. These are
the parts it models:

- **Status tracker.** Each poll compares every monitored name's fresh status
  with its last record. A name with no record, or a changed status, is mailed
  and its record is overwritten.
- **Recovery controller.** A service that changed to Stopped while
  auto-restart is on gets up to `max_restart_attempts` restart calls. There is
  a 5-second back-off after each failure, and one report follows.
- **Threshold evaluator.** CPU, then RAM, then every partition whose device has
  a threshold. Each is compared strictly against its threshold.
- **Overload rate gate.** `last_email_sent` decides whether an overload mail
  goes out.
- **Report scheduler.** It sends at most one Daily, Weekly or Monthly report
  per poll, measured from the single `LastReportTime`.
- **Target registry.** Adding and removing monitored names, the
  case-insensitive search filter, and the service status labels.
- **Poll loop.** Its fixed order of steps, in both copies the program has:
  the methods of the `ServiceMonitorApp` class (`app/gui.py`) and the free
  functions over the application object (`app/monitoring.py`).

Every mail, restart call, sleep and UI refresh goes into one append-only log,
`effects: seq<Effect>`:

- a mail under the configured subject, with what it is about;
- a restart call with its attempt number;
- a `time.sleep`;
- the refresh that the poll loop schedules on the UI thread.

"Exactly one mail", "at most N restart calls" and "in this order" are
statements about that log. What psutil, win32serviceutil, the dialogs and the
clock would answer is passed in:

- a service probe `map<string, bool>`;
- the restart outcome per attempt, `(string, int) -> bool`;
- a snapshot of running process names;
- the partitions with their usage;
- integer percentages;
- one integer `now` in seconds per check.

Layout, one module per part:

| file | module | what it holds |
|---|---|---|
| `types.dfy` | `Types` | statuses, alerts, effects, settings, counting effects |
| `tracker.dfy` | `StatusTracker` | the service and process sweeps as folds, and their lemmas |
| `recovery.dfy` | `Recovery` | one restart episode as a sequence of effects |
| `alerts.dfy` | `Alerts` | the rate gate |
| `thresholds.dfy` | `Thresholds` | the CPU, RAM and disk evaluator; the disk-threshold dialog rule |
| `reports.dfy` | `Reports` | the report decision |
| `registry.dfy` | `TargetRegistry` | probes, filter, add and remove |
| `gui.dfy` | `Gui` | `class ServiceMonitorApp`: its fields and its imperative methods |
| `monitoring.dfy` | `Monitoring` | `app/monitoring.py`'s loop and checks, as methods over the application object |

Every state-changing method is proved against a specification function of
these modules. The properties are lemmas about those functions.

Some behaviours of the code are easy to get wrong. The model follows the
code on each:

- **First check.** A name with no record fires on its first check, with
  previous status "Unknown" (`StatusTracker.FirstCheckFiresUnknown`). This
  includes names loaded from the configuration. Names added through the UI
  are seeded "Running", so they do not fire while they keep running.
- **Elapsed-time test.** The rate gate's elapsed-time test is strict: a mail
  exactly `frequency` minutes after the last one is not sent
  (`Alerts.ShouldMail`).
- **Repeat mails.** With repeat mails off, a key that has an entry is never
  mailed again, however much time passes (`Alerts.RepeatOffNeverResends`,
  `Alerts.RepeatOffMailsAtMostOnce`, `Monitoring.RunMailsOverloadAtMostOnce`).
- **Report priority.** Because of the order of the checks, an enabled daily
  report shadows the weekly and monthly ones
  (`Reports.DailyShadowsLongerPeriods`).

## Model

| member | source | states |
|---|---|---|
| Gui.ServiceMonitorApp.constructor | app/gui.py:34-57 | monitoring starts with the names loaded from the configuration, no status records, no overload stamps, no disk thresholds and nothing sent |
| Gui.ServiceMonitorApp.SendEmail | app/gui.py:843-852 | a mail is one logged attempt under the configured subject, whatever subject the caller passed |
| Gui.ServiceMonitorApp.ScanServices | app/gui.py:565-567 | after a scan the scanned service list box shows every found service, in order; the process list box is untouched |
| Gui.ServiceMonitorApp.ScanProcesses | app/gui.py:569-571 | after a scan the scanned process list box shows every found process, in order; the service list box is untouched |
| Gui.ServiceMonitorApp.UpdateFilteredItems | app/gui.py:573-583 | the list box of the chosen kind shows exactly the filtered scan results; the other list box is unchanged |
| TargetRegistry.FilterKeepsMatches | app/gui.py:575 | the filter keeps an item iff its lower-cased form contains the lower-cased search text; it keeps every occurrence of a match and never invents items |
| TargetRegistry.EmptySearchKeepsAll | app/gui.py:567 | an empty search text keeps every scanned name, in order |
| TargetRegistry.FilterAppend | app/gui.py:575 | filtering a concatenation filters each part, so the kept items stay in scan order |
| TargetRegistry.FilterIgnoresCase | app/gui.py:580 | two search texts with the same lower case select the same items |
| TargetRegistry.ContainsIffOccurs | app/gui.py:575 | the substring test holds iff the needle occurs at some position of the text |
| TargetRegistry.Lower | app/gui.py:575 | lower-casing keeps the length and maps each character on its own |
| Gui.ServiceMonitorApp.AddToMonitorList | app/gui.py:585-601 | both loops leave each registry equal to adding the picked names one by one, services first |
| TargetRegistry.AddAllEffect | app/gui.py:589-601 | adding lists exactly the non-empty picked names not yet listed, appends the same names in the same order to the selection, seeds each as Running, keeps the other records, and keeps the list box free of duplicates |
| Gui.ServiceMonitorApp.RemoveFromMonitorList | app/gui.py:605-621 | the service rows are removed, then the process rows; a KeyError in the service loop leaves the processes untouched and is reported as not ok |
| Gui.ServiceMonitorApp.RemoveServiceRows | app/gui.py:609-614 | the chosen service rows are removed last first, stopping at the first KeyError; the loop equals `TargetRegistry.RemoveRows` on the old registry, one `RemoveRowsStep` per row |
| Gui.ServiceMonitorApp.RemoveProcessRows | app/gui.py:616-621 | the chosen process rows are removed last first, stopping at the first KeyError; the loop equals `TargetRegistry.RemoveRows` on the old registry, one `RemoveRowsStep` per row |
| Gui.ServiceMonitorApp.RemoveServiceRow | app/gui.py:610-614 | one row goes; if its name is selected, its first occurrence and its record go too; a selected name with no record raises after the row and the entry are gone |
| Gui.ServiceMonitorApp.RemoveProcessRow | app/gui.py:617-621 | the same for one process row |
| TargetRegistry.RemoveFirst | app/gui.py:613 | list.remove shortens the list by one |
| TargetRegistry.RemoveFirstMultiset | app/gui.py:613 | list.remove takes away exactly one copy of the name and keeps the order of the rest |
| TargetRegistry.IndexOf | app/gui.py:613 | the position list.remove deletes is the first occurrence of the name |
| TargetRegistry.RemoveSelectedRow | app/gui.py:609-614 | removing a selected, recorded row deletes that row, one occurrence of its name and its record; every other row, entry and record stays where it was |
| TargetRegistry.RemoveRowsFrame | app/gui.py:605-621 | removal never adds or changes a record; it keeps the records of names on no chosen row; a completed removal deletes exactly one row per chosen row |
| Gui.ServiceMonitorApp.SetDiskThresholds | app/gui.py:489-495 | the thresholds become the dialog answers for the filesystem partitions, stored under their devices |
| Thresholds.ThresholdUpdatesRule | app/gui.py:489-495 | stored thresholds stay in 1..100; a new key is always the device of a partition with a filesystem; a device that got no answer keeps its value; every answered filesystem partition gets its answer |
| TargetRegistry.IsServiceRunning | app/gui.py:832-841 | is_service_running is false for an empty name; for any other name it agrees with get_service_status's label: running iff the label is "Running", so "Stopped" and "Not Found" both read as not running |
| TargetRegistry.RunningServices | app/gui.py:832-841 | the snapshot holds exactly the non-empty names that the probe reports running |
| TargetRegistry.GetServiceStatus | app/gui.py:665-672 | the label is one of Monitored, Running, Stopped and Not Found; Monitored iff the name is empty; Not Found iff the lookup fails; for a name the lookup finds, Running iff the service is running and Stopped otherwise |
| Gui.ServiceMonitorApp.CheckServices | app/gui.py:674-684 | the service loop's records, mails and restart episodes are the service sweep's over the probe's snapshot; an escaped exception ends the loop |
| Gui.ServiceMonitorApp.CheckService | app/gui.py:676-684 | one name does exactly a sweep step: mail and record on a change, then a restart episode for a change to Stopped with auto-restart on |
| Gui.ServiceMonitorApp.CheckProcesses | app/gui.py:686-693 | the process loop's records and mails are the process sweep's over the one snapshot |
| Gui.ServiceMonitorApp.HandleServiceStatusChange | app/gui.py:695-700 | one mail, "Service STATUS", that carries the old record or "Unknown" as the previous status |
| Gui.ServiceMonitorApp.HandleProcessStatusChange | app/gui.py:702-707 | one mail, "Process STATUS", that carries the old record or "Unknown" as the previous status |
| StatusTracker.ServiceChangeMail | app/gui.py:676-700 | a detected service change mails first: "Service STATUS", the old record or "Unknown", the configured subject; the record then holds the current status |
| StatusTracker.FirstCheckFiresUnknown | app/monitoring.py:30-37 | a non-empty name with no record fires on its first check, with previous status "Unknown" |
| StatusTracker.RestartOnlyOnChangeToStopped | app/gui.py:683-684 | a step runs one restart episode iff the name's status changed to Stopped while auto-restart is on; an unchanged Stopped never runs one |
| StatusTracker.StepAccounting | app/gui.py:676-684 | one service step adds one change mail iff the handler fires, one report and at most max restart calls iff it restarts, and nothing for other names |
| StatusTracker.ServiceSweepRecords | app/gui.py:674-681 | after a sweep that cannot crash, every non-empty monitored service holds its current status; other records are unchanged; empty names are skipped |
| StatusTracker.ServiceSweepMails | app/gui.py:674-684 | a sweep mails once per name whose status changed, however often it is listed; it runs one episode per change to Stopped with auto-restart on; nothing else is mailed or restarted |
| StatusTracker.ServiceSweepCrash | app/gui.py:709-722 | a sweep can only crash through a restart with fewer than one attempt allowed |
| StatusTracker.CrashedSweepStays | app/gui.py:674-684 | once an exception escapes, the names after it are not checked |
| StatusTracker.ProcessSweepRecords | app/gui.py:686-693 | after a process sweep every non-empty monitored name holds Running iff it is in the snapshot, else Not Running; other records are unchanged |
| StatusTracker.ProcessSweepMails | app/gui.py:686-693 | a process sweep mails once per name whose status changed and for no other name |
| Gui.ServiceMonitorApp.AttemptServiceRestart | app/gui.py:709-722 | the loop logs the restart episode: calls 1.., a back-off after each failure, a stop at the first success, one report; with max < 1 it raises and logs nothing |
| Gui.ServiceMonitorApp.SendRestartReport | app/gui.py:724-736 | one mail, "Service Restart Success/Failure: NAME", carrying the outcome and the attempt |
| Recovery.FirstSuccess | app/gui.py:712-716 | the attempt that ends the loop is the first that succeeds; if none does, all attempts failed |
| Recovery.RestartEpisode | app/gui.py:709-722 | an episode exists iff at least one attempt is allowed |
| Recovery.FailedTriesShape | app/gui.py:712-720 | the failed tries are calls numbered 1, 2, …, each followed by the 5-second back-off |
| Recovery.FailedTriesCount | app/gui.py:712-720 | n failed tries hold n restart calls for the service and nothing else that is counted |
| Recovery.EpisodeAccounting | app/gui.py:709-722 | at most max calls, numbered from 1; a stop at the first success; exactly one report, last, with (True, k) for success on try k or (False, max) |
| Recovery.AlwaysFailingThreeAttempts | app/gui.py:709-722 | a restart that always fails, with three attempts, makes three calls and reports (False, 3) |
| Recovery.SucceedsOnFirstAttempt | app/gui.py:709-722 | success on the only attempt gives one call and the report (True, 1) |
| Gui.ServiceMonitorApp.CheckCpuRamUsage | app/gui.py:738-745 | the handler calls are the evaluator's overloads, passed through the gate in order |
| Gui.ServiceMonitorApp.CheckDiskSpace | app/gui.py:747-753 | the handler calls are the evaluator's disk overloads, in partition order, passed through the gate |
| Thresholds.CpuRamOverloads | app/gui.py:738-745 | at most two overloads, CPU before RAM, each present iff its reading is strictly above its threshold |
| Thresholds.StrictThreshold | app/gui.py:742 | a reading equal to the threshold never fires; one above it always does |
| Thresholds.BothOverThreshold | app/gui.py:738-745 | CPU 90 and RAM 85 against thresholds of 80 give two calls, CPU first |
| Thresholds.DiskOverloadsExact | app/gui.py:747-753 | only devices with a threshold are examined; every call is "Disk Space DEVICE" for a partition strictly over its threshold; every such partition fires |
| Thresholds.DiskOverloadsSingle | app/gui.py:749-753 | one partition makes exactly one call when it is over its threshold and none otherwise |
| Thresholds.DiskOverloadsAppend | app/gui.py:748-753 | the calls for a run of partitions are the calls for the first part followed by those for the rest: one call per partition that is over, in partition order |
| Gui.ServiceMonitorApp.HandleHardwareOverload | app/gui.py:825-830 | the gate: mail and stamp the key with now, or change nothing |
| Alerts.ShouldMail | app/gui.py:825-827 | mail iff the key has no entry, or the entry is strictly more than frequency minutes old and repeat is on |
| Alerts.StampOnlyWhenMailed | app/gui.py:825-830 | the entry is written exactly when the mail is sent, and then holds now; other keys' mails and entries are untouched |
| Alerts.RepeatOffNeverResends | app/gui.py:825-827 | with repeat off, a key that has an entry is never mailed again, whatever time has passed |
| Alerts.DispatchKeepsOnce | app/gui.py:825-830 | with repeat off, one check keeps each key mailed no more often than its entry says |
| Alerts.RepeatOffMailsAtMostOnce | app/gui.py:825-830 | with repeat off, over any run of checks starting from a fresh application, each key is mailed at most once |
| Alerts.FirstOverloadDeliveredAtOnce | app/gui.py:825-830 | a first overload is mailed at once and stamped with now |
| Alerts.DispatchAppend | app/gui.py:742-745 | gating two lists of calls in turn is gating their concatenation |
| Gui.ServiceMonitorApp.GenerateReportsIfNeeded | app/gui.py:1040-1052 | the scheduler's state after a call is the report decision applied to the old state |
| Gui.ServiceMonitorApp.GenerateReport | app/gui.py:1054-1060 | one "KIND System Report" mail, then LastReportTime becomes now |
| Gui.ServiceMonitorApp.SendInstantReport | app/gui.py:1062-1065 | one "Instant System Report" mail; LastReportTime is untouched |
| Reports.ReportDue | app/gui.py:1040-1052 | nothing while reports are inactive; a chosen kind is enabled and due; none is chosen only if none is due; Weekly only if Daily is not due, Monthly only if neither is |
| Reports.GenerateAtMostOne | app/gui.py:1040-1058 | at most one report per call, appended; LastReportTime moves to now exactly when one is sent; nothing changes when none is due |
| Reports.DailyShadowsLongerPeriods | app/gui.py:1047-1052 | with daily reports on, no weekly or monthly report is ever chosen; with weekly on, no monthly one |
| Reports.DailyWinsOverWeekly | app/gui.py:1047-1050 | 90000 seconds after the last report, with daily and weekly on, the daily report is sent |
| Monitoring.CheckServices | app/monitoring.py:19-28 | the loop's records, mails and restart episodes are the service sweep's; an escaped exception ends it |
| Monitoring.CheckService | app/monitoring.py:21-28 | one name does exactly a sweep step |
| Monitoring.CheckProcesses | app/monitoring.py:30-37 | the loop's records and mails are the process sweep's over the one snapshot |
| Monitoring.CheckCpuRamUsage | app/monitoring.py:39-46 | the handler calls are the evaluator's CPU and RAM overloads, through the gate |
| Monitoring.CheckDiskSpace | app/monitoring.py:48-53 | the handler calls are the evaluator's disk overloads, in partition order, through the gate |
| Monitoring.GenerateReportsIfNeeded | app/monitoring.py:16 | the report step changes the state as the scheduler decides |
| Monitoring.PollCycle | app/monitoring.py:10-17 | one iteration: refresh, services, processes, CPU and RAM, disks, reports, sleep 5; an exception from the service step ends it there |
| Monitoring.Monitor | app/monitoring.py:9-17 | the loop is one cycle per sample, until a cycle ends the thread |
| Monitoring.DeadRunStays | app/monitoring.py:9-17 | after the cycle that ends the thread, nothing more happens |
| Monitoring.ServiceSweepGrows | app/monitoring.py:12 | the service step only appends service-step effects: mails, restart calls, back-offs and reports |
| Monitoring.ProcessSweepGrows | app/monitoring.py:13 | the process step only appends process change mails |
| Monitoring.DispatchGrows | app/monitoring.py:14-15 | an overload check only appends mails of its own step |
| Monitoring.CpuRamPhase | app/monitoring.py:39-46 | every call of check_cpu_ram_usage belongs to the CPU and RAM step |
| Monitoring.DiskPhase | app/monitoring.py:48-53 | every call of check_disk_space belongs to the disk step, which comes after the CPU and RAM step |
| Monitoring.GenerateGrows | app/monitoring.py:16 | the report step only appends report mails |
| Monitoring.CycleOrder | app/monitoring.py:9-17 | a cycle's effects come in step order: refresh, services, processes, CPU and RAM overloads, disk overloads, reports, then the 5-second sleep; a cycle that ends the thread stops within the service step |
| Monitoring.InOrderSorted | app/monitoring.py:10-16 | in an ordered cycle, any effect after another belongs to the same step or a later one |
| Monitoring.CycleRecords | app/monitoring.py:9-37 | with auto-restart off or at least one attempt allowed, no cycle ends the thread, and every non-empty monitored name then holds its current status |
| Monitoring.CycleKeepsOnce | app/monitoring.py:9-17 | with repeat mails off, a whole cycle keeps each overload key mailed no more often than its entry says |
| Monitoring.RunMailsOverloadAtMostOnce | app/monitoring.py:9-17 | with repeat mails off, any number of cycles from a fresh state mail each overload key at most once |
| Monitoring.FailedTriesPhase | app/gui.py:712-720 | every restart call and 5-second back-off of the failed attempts belongs to the service step |
| Monitoring.EpisodePhase | app/gui.py:709-722 | every effect of a restart episode belongs to the service step |

## Left out

- Tk widgets and layout, the tray icon, the graphs and `refresh_status`'s label
  updates: these are UI. The poll loop's `root.after(0, refresh_status)` is kept
  as one `RefreshScheduled` effect.
- The SMTP transport, the MIME assembly and every mail body (HTML, strftime,
  system details, top processes): these are network I/O and text rendering. A
  mail is the logged attempt under the configured subject. A transport failure
  is swallowed inside `send_email`, so the callers never see it.
- `test_email_connection`, the Flask server and its routes, `save_settings`,
  `save_monitoring_settings` and the configuration file: these are I/O. The
  constructor takes the loaded settings and name lists. `generate_report`
  writes `LastReportTime` to the file; here it is a field of the application.
- `Gui.ServiceMonitorApp.GenerateReport`: always sets `LastReportTime` to
  `now` after the mail, and monitoring goes on. Two ways the program departs
  from this are not modelled, because both depend on the contents of
  config.ini, which is left out. (1) When config.ini has no [REPORTS] section
  (a first run, with reports switched on in the UI but never saved),
  `config.set` at app/gui.py:1058 raises NoSectionError. The report mail has
  gone out, `LastReportTime` stays unset, and the exception ends the
  monitoring thread. (2) `save_settings` replaces the whole [REPORTS] section
  without `LastReportTime` (app/gui.py:531-536). The next poll then reads the
  fallback 0 and sends a report at once. In the model, a Save leaves the field
  as it was.
- The console output of `print`: "service not found" in `is_service_running`
  (app/gui.py:840), and "mail sent" or "mail failed" in `send_email`
  (app/gui.py:937, 939). This output is not part of the effect log.
- `load_monitored_items`, `start_monitoring`, and starting, stopping and
  restarting a selected service from the UI: these are UI plumbing outside the
  monitoring rules.
- Threads, real time and `time.sleep`: the sleeps are logged effects. One
  clock reading `now` serves a whole check or cycle, so time does not advance
  between two overloads of one check.
- `Monitoring.Monitor`: the endless `while True` loop is modelled as finitely
  many cycles, one per sample.
- The class's own copy of the poll loop (app/gui.py:629-637) makes the same
  calls in the same order as app/monitoring.py:9-17. `Monitoring.PollCycle`
  drives the class's state through that order and stands for both copies.
- `Gui.ServiceMonitorApp.CheckServices`: the probe is read once per sweep (a
  snapshot). The program queries the service controller once per name.
- `Gui.ServiceMonitorApp.SetDiskThresholds`: the dialog's answer per device is
  a map given in advance. A device listed twice gets the same answer both
  times, where the program would ask twice.
- `TargetRegistry.Lower`: only ASCII capitals are lowered. Unicode case
  mapping is not modelled.
- `TargetRegistry.RemoveFirst`: its multiset and order facts are stated by
  `TargetRegistry.RemoveFirstMultiset` rather than by its own contract.
- psutil's readings are integer percentages here. The program compares floats
  against integer thresholds.
- The UnboundLocalError of `attempt_service_restart` with fewer than one
  attempt allowed is modelled as the sweep, and with it the monitoring thread,
  ending. The exception ends only the monitoring thread; Python prints its
  traceback and the UI keeps running without monitoring. That output is not
  modelled.
- `is_service_running` and `generate_reports_if_needed` are called but not
  defined in app/monitoring.py. The first is the cycle's `serviceRunning`
  answer; the second is the class's `generate_reports_if_needed`.
