/** app/monitoring.py: the poll loop and its four checks as free methods over
    the application object.  The module calls is_service_running and
    generate_reports_if_needed without defining them; here the first is the
    `serviceRunning` answer of the cycle's sample and the second is the
    application's own GenerateReportsIfNeeded. */
module Monitoring {
  import opened Types
  import opened Recovery
  import opened StatusTracker
  import opened Alerts
  import opened Thresholds
  import opened Reports
  import opened Gui

  /** time.sleep(5) at the end of every cycle. */
  const PollInterval: int := 5

  /** What the probes answer during one cycle; one clock reading serves it. */
  datatype Sample = Sample(
    serviceRunning: set<string>,
    restartOk: RestartProbe,
    processNames: seq<string>,
    cpu: int,
    ram: int,
    partitions: seq<Partition>,
    now: int)

  /** The part of the application a cycle reads or writes. */
  datatype Core = Core(
    services: seq<string>,
    processes: seq<string>,
    diskThresholds: map<string, int>,
    serviceRecords: map<string, Status>,
    processRecords: map<string, Status>,
    lastSent: map<string, int>,
    lastReportTime: int,
    effects: seq<Effect>)

  function State(app: ServiceMonitorApp): Core
    reads app
  {
    Core(app.selectedServices, app.selectedProcesses, app.diskThresholds, app.lastServiceStatus,
         app.lastProcessStatus, app.lastEmailSent, app.lastReportTime, app.effects)
  }

  /** One name of the check_services loop: a status change is recorded and
      mailed, and a change to Stopped with auto-restart on runs the restart
      attempts; `raised` is true when an exception escaped them. */
  method CheckService(app: ServiceMonitorApp, name: string, running: set<string>, ok: RestartProbe) returns (raised: bool)
    modifies app`lastServiceStatus, app`effects
    ensures Tracker(app.lastServiceStatus, app.effects, raised)
         == ServiceStep(Tracker(old(app.lastServiceStatus), old(app.effects), false), name, running, app.settings, ok)
  {
    ghost var prev := Tracker(app.lastServiceStatus, app.effects, false);
    raised := false;
    if name != "" {
      var current := if name in running then Running else Stopped;
      assert current == ServiceStatusOf(name, running);
      if name !in app.lastServiceStatus || current != app.lastServiceStatus[name] {
        ghost var t1 := Track(prev, app.settings.emailSubject, Service, name, current);
        app.HandleServiceStatusChange(name, current);
        app.lastServiceStatus := app.lastServiceStatus[name := current];
        assert Tracker(app.lastServiceStatus, app.effects, false) == t1;
        ServiceStepChanged(prev, name, running, app.settings, ok);
        if current == Stopped && app.settings.autoRestartService {
          raised := app.AttemptServiceRestart(name, ok);
        }
      }
    }
  }

  /** check_services(app): the records and effects after the sweep, and
      whether it completed. */
  function ServicesChecked(c: Core, running: set<string>, ok: RestartProbe, cfg: Settings): (Core, bool) {
    var t := ServiceSweep(Tracker(c.serviceRecords, c.effects, false), c.services, running, cfg, ok);
    (c.(serviceRecords := t.records, effects := t.effects), !t.crashed)
  }

  /** check_processes(app). */
  function ProcessesChecked(c: Core, running: seq<string>, cfg: Settings): Core {
    var t := ProcessSweep(Tracker(c.processRecords, c.effects, false), c.processes, running, cfg.emailSubject);
    c.(processRecords := t.records, effects := t.effects)
  }

  /** check_cpu_ram_usage(app). */
  function CpuRamChecked(c: Core, cpu: int, ram: int, now: int, cfg: Settings): Core {
    var g := Dispatch(Gate(c.lastSent, c.effects), CpuRamOverloads(cpu, ram, cfg), now, cfg);
    c.(lastSent := g.lastSent, effects := g.effects)
  }

  /** check_disk_space(app). */
  function DiskChecked(c: Core, partitions: seq<Partition>, now: int, cfg: Settings): Core {
    var g := Dispatch(Gate(c.lastSent, c.effects), DiskOverloads(partitions, c.diskThresholds), now, cfg);
    c.(lastSent := g.lastSent, effects := g.effects)
  }

  /** generate_reports_if_needed(app). */
  function ReportsChecked(c: Core, now: int, cfg: Settings): Core {
    var sch := Generate(Schedule(c.lastReportTime, c.effects), cfg, now);
    c.(lastReportTime := sch.lastReportTime, effects := sch.effects)
  }

  /** One pass of monitor_services_and_processes: schedule the refresh, check
      services, processes, CPU and RAM, disks, then reports, then sleep.  The
      flag is false when an exception escaped the service check, which ends
      the monitoring thread. */
  function Cycle(c: Core, s: Sample, cfg: Settings): (Core, bool) {
    var svc := ServicesChecked(c.(effects := c.effects + [RefreshScheduled]), s.serviceRunning, s.restartOk, cfg);
    if !svc.1 then svc
    else
      var c2 := ProcessesChecked(svc.0, s.processNames, cfg);
      var c3 := CpuRamChecked(c2, s.cpu, s.ram, s.now, cfg);
      var c4 := DiskChecked(c3, s.partitions, s.now, cfg);
      var c5 := ReportsChecked(c4, s.now, cfg);
      (c5.(effects := c5.effects + [Sleep(PollInterval)]), true)
  }

  /** The first cycles of the endless loop, one per sample, up to the first
      that ends the thread. */
  function Run(c: Core, samples: seq<Sample>, cfg: Settings): (Core, bool)
    decreases |samples|
  {
    if samples == [] then (c, true)
    else
      var prev := Run(c, samples[..|samples| - 1], cfg);
      if !prev.1 then prev else Cycle(prev.0, samples[|samples| - 1], cfg)
  }

  // ---------------------------------------------------------------------------
  // The methods

  /** check_services(app), with this cycle's answer of is_service_running. */
  method CheckServices(app: ServiceMonitorApp, running: set<string>, ok: RestartProbe) returns (alive: bool)
    modifies app`lastServiceStatus, app`effects
    ensures (State(app), alive) == ServicesChecked(old(State(app)), running, ok, app.settings)
  {
    ghost var t0 := Tracker(app.lastServiceStatus, app.effects, false);
    alive := true;
    for k := 0 to |app.selectedServices|
      invariant Tracker(app.lastServiceStatus, app.effects, false) == ServiceSweep(t0, app.selectedServices[..k], running, app.settings, ok)
    {
      ServiceSweepSnoc(t0, app.selectedServices, k, running, app.settings, ok);
      var raised := CheckService(app, app.selectedServices[k], running, ok);
      if raised {
        alive := false;
        CrashedSweepStays(t0, app.selectedServices, k + 1, running, app.settings, ok);
        return;
      }
    }
    assert app.selectedServices[..|app.selectedServices|] == app.selectedServices;
  }

  /** check_processes(app), with the one snapshot of running names it takes. */
  method CheckProcesses(app: ServiceMonitorApp, running: seq<string>)
    modifies app`lastProcessStatus, app`effects
    ensures State(app) == ProcessesChecked(old(State(app)), running, app.settings)
  {
    ghost var t0 := Tracker(app.lastProcessStatus, app.effects, false);
    for k := 0 to |app.selectedProcesses|
      invariant Tracker(app.lastProcessStatus, app.effects, false) == ProcessSweep(t0, app.selectedProcesses[..k], running, app.settings.emailSubject)
    {
      var name := app.selectedProcesses[k];
      assert app.selectedProcesses[..k + 1][..k] == app.selectedProcesses[..k];
      if name != "" {
        var current := if name in running then Running else NotRunning;
        if name !in app.lastProcessStatus || current != app.lastProcessStatus[name] {
          app.HandleProcessStatusChange(name, current);
          app.lastProcessStatus := app.lastProcessStatus[name := current];
        }
      }
    }
    assert app.selectedProcesses[..|app.selectedProcesses|] == app.selectedProcesses;
  }

  method CheckCpuRamUsage(app: ServiceMonitorApp, cpu: int, ram: int, now: int)
    modifies app`lastEmailSent, app`effects
    ensures State(app) == CpuRamChecked(old(State(app)), cpu, ram, now, app.settings)
  {
    ghost var g0 := Gate(app.lastEmailSent, app.effects);
    ghost var cpuPart := if cpu > app.settings.cpuThreshold then [Overload("CPU Usage", cpu, app.settings.cpuThreshold)] else [];
    ghost var ramPart := if ram > app.settings.ramThreshold then [Overload("RAM Usage", ram, app.settings.ramThreshold)] else [];
    if cpu > app.settings.cpuThreshold {
      app.HandleHardwareOverload("CPU Usage", cpu, app.settings.cpuThreshold, now);
      DispatchOne(g0, Overload("CPU Usage", cpu, app.settings.cpuThreshold), now, app.settings);
    }
    ghost var g1 := Gate(app.lastEmailSent, app.effects);
    assert g1 == Dispatch(g0, cpuPart, now, app.settings);
    if ram > app.settings.ramThreshold {
      app.HandleHardwareOverload("RAM Usage", ram, app.settings.ramThreshold, now);
      DispatchOne(g1, Overload("RAM Usage", ram, app.settings.ramThreshold), now, app.settings);
    }
    DispatchAppend(g0, cpuPart, ramPart, now, app.settings);
  }

  method CheckDiskSpace(app: ServiceMonitorApp, partitions: seq<Partition>, now: int)
    modifies app`lastEmailSent, app`effects
    ensures State(app) == DiskChecked(old(State(app)), partitions, now, app.settings)
  {
    ghost var g0 := Gate(app.lastEmailSent, app.effects);
    for k := 0 to |partitions|
      invariant Gate(app.lastEmailSent, app.effects) == Dispatch(g0, DiskOverloads(partitions[..k], app.diskThresholds), now, app.settings)
    {
      var p := partitions[k];
      ghost var before := DiskOverloads(partitions[..k], app.diskThresholds);
      ghost var g := Gate(app.lastEmailSent, app.effects);
      assert partitions[..k + 1][..k] == partitions[..k];
      if p.device in app.diskThresholds {
        var usage := p.usedPercent;
        if usage > app.diskThresholds[p.device] {
          app.HandleHardwareOverload("Disk Space " + p.device, usage, app.diskThresholds[p.device], now);
          DispatchOne(g, DiskOverload(p, app.diskThresholds), now, app.settings);
          DispatchAppend(g0, before, [DiskOverload(p, app.diskThresholds)], now, app.settings);
        } else {
          assert before + [] == before;
        }
      } else {
        assert before + [] == before;
      }
    }
    assert partitions[..|partitions|] == partitions;
  }

  /** The report step of the loop, which the module leaves undefined: the
      application's own generate_reports_if_needed. */
  method GenerateReportsIfNeeded(app: ServiceMonitorApp, now: int)
    modifies app`lastReportTime, app`effects
    ensures State(app) == ReportsChecked(old(State(app)), now, app.settings)
  {
    app.GenerateReportsIfNeeded(now);
  }

  /** One iteration of monitor_services_and_processes. */
  method PollCycle(app: ServiceMonitorApp, s: Sample) returns (alive: bool)
    modifies app`lastServiceStatus, app`lastProcessStatus, app`lastEmailSent, app`lastReportTime, app`effects
    ensures (State(app), alive) == Cycle(old(State(app)), s, app.settings)
  {
    app.effects := app.effects + [RefreshScheduled];
    alive := CheckServices(app, s.serviceRunning, s.restartOk);
    if !alive {
      return;
    }
    CheckProcesses(app, s.processNames);
    CheckCpuRamUsage(app, s.cpu, s.ram, s.now);
    CheckDiskSpace(app, s.partitions, s.now);
    GenerateReportsIfNeeded(app, s.now);
    app.effects := app.effects + [Sleep(PollInterval)];
  }

  /** monitor_services_and_processes for as many cycles as there are samples,
      or until a cycle ends the thread. */
  method Monitor(app: ServiceMonitorApp, samples: seq<Sample>) returns (alive: bool)
    modifies app`lastServiceStatus, app`lastProcessStatus, app`lastEmailSent, app`lastReportTime, app`effects
    ensures (State(app), alive) == Run(old(State(app)), samples, app.settings)
  {
    ghost var c0 := State(app);
    alive := true;
    for k := 0 to |samples|
      invariant (State(app), true) == Run(c0, samples[..k], app.settings)
    {
      assert samples[..k + 1][..k] == samples[..k];
      alive := PollCycle(app, samples[k]);
      if !alive {
        DeadRunStays(c0, samples, k + 1, app.settings);
        return;
      }
    }
    assert samples[..|samples|] == samples;
  }

  /** After the cycle that ends the thread, later samples change nothing. */
  lemma {:induction false} DeadRunStays(c: Core, samples: seq<Sample>, i: nat, cfg: Settings)
    requires i <= |samples| && !Run(c, samples[..i], cfg).1
    ensures Run(c, samples, cfg) == Run(c, samples[..i], cfg)
  {
    if i < |samples| {
      var init := samples[..|samples| - 1];
      assert init[..i] == samples[..i];
      DeadRunStays(c, init, i, cfg);
    } else {
      assert samples[..i] == samples;
    }
  }

  // ---------------------------------------------------------------------------
  // The order of a cycle's effects

  /** The step an overload call comes from: check_cpu_ram_usage names its
      calls "CPU Usage" and "RAM Usage", check_disk_space "Disk Space DEVICE". */
  function OverloadPhase(name: string): nat {
    if name == "CPU Usage" || name == "RAM Usage" then 3 else 4
  }

  /** Which step of the cycle an effect belongs to: the scheduled refresh, the
      service check (its mails, restart calls, back-off sleeps and restart
      reports), the process check, the CPU and RAM check, the disk check, the
      reports. */
  function Phase(e: Effect): nat {
    match e
    case RefreshScheduled => 0
    case RestartCall(_, _) => 1
    case Sleep(_) => 1
    case Mail(_, a) =>
      match a
      case StatusChange(kind, _, _, _, _) => if kind == Service then 1 else 2
      case RestartReport(_, _, _, _) => 1
      case HardwareOverload(name, _, _, _) => OverloadPhase(name)
      case SystemReport(_, _) => 5
  }

  /** `after` is `before` followed by effects of phase p only. */
  predicate Grows(before: seq<Effect>, after: seq<Effect>, p: nat) {
    |before| <= |after| && after[..|before|] == before
    && forall i :: |before| <= i < |after| ==> Phase(after[i]) == p
  }

  lemma GrowsTrans(a: seq<Effect>, b: seq<Effect>, c: seq<Effect>, p: nat)
    requires Grows(a, b, p) && Grows(b, c, p)
    ensures Grows(a, c, p)
  {
    assert c[..|a|] == c[..|b|][..|a|];
  }

  lemma GrowsBy(a: seq<Effect>, d: seq<Effect>, p: nat)
    requires forall i :: 0 <= i < |d| ==> Phase(d[i]) == p
    ensures Grows(a, a + d, p)
  {
    assert (a + d)[..|a|] == a;
    forall i | |a| <= i < |a + d| ensures Phase((a + d)[i]) == p {
      assert (a + d)[i] == d[i - |a|];
    }
  }

  lemma {:induction false} FailedTriesPhase(name: string, n: nat)
    ensures forall i :: 0 <= i < |FailedTries(name, n)| ==> Phase(FailedTries(name, n)[i]) == 1
  {
    if n > 0 {
      FailedTriesPhase(name, n - 1);
      var pre := FailedTries(name, n - 1);
      assert FailedTries(name, n) == pre + [RestartCall(name, n), Sleep(RestartBackoff)];
      forall i | 0 <= i < |FailedTries(name, n)| ensures Phase(FailedTries(name, n)[i]) == 1 {
        if i < |pre| {
          assert FailedTries(name, n)[i] == pre[i];
        }
      }
    }
  }

  /** A whole restart episode belongs to the service step. */
  lemma EpisodePhase(ok: RestartProbe, name: string, max: int, subject: string)
    requires max >= 1
    ensures var ep := RestartEpisode(ok, name, max, subject).value;
      forall i :: 0 <= i < |ep| ==> Phase(ep[i]) == 1
  {
    var ep := RestartEpisode(ok, name, max, subject).value;
    match FirstSuccess(ok, name, 1, max)
    case Some(k) =>
      var failed: nat := k - 1;
      FailedTriesPhase(name, failed);
      var tail := [RestartCall(name, k), RestartReportMail(subject, name, true, k)];
      assert ep == FailedTries(name, failed) + tail;
      forall i | 0 <= i < |ep| ensures Phase(ep[i]) == 1 {
        if i < |FailedTries(name, failed)| {
          assert ep[i] == FailedTries(name, failed)[i];
        }
      }
    case None =>
      FailedTriesPhase(name, max);
      assert ep == FailedTries(name, max) + [RestartReportMail(subject, name, false, max)];
      forall i | 0 <= i < |ep| ensures Phase(ep[i]) == 1 {
        if i < |FailedTries(name, max)| {
          assert ep[i] == FailedTries(name, max)[i];
        }
      }
  }

  lemma {:induction false} ServiceSweepGrows(t: Tracker, names: seq<string>, running: set<string>, cfg: Settings, ok: RestartProbe)
    decreases |names|
    ensures Grows(t.effects, ServiceSweep(t, names, running, cfg, ok).effects, 1)
  {
    if names == [] {
      assert t.effects[..|t.effects|] == t.effects;
    } else {
      var prev := ServiceSweep(t, names[..|names| - 1], running, cfg, ok);
      var x := names[|names| - 1];
      ServiceSweepGrows(t, names[..|names| - 1], running, cfg, ok);
      var r := ServiceStep(prev, x, running, cfg, ok);
      if !prev.crashed && x != "" && Changed(prev.records, x, ServiceStatusOf(x, running)) {
        var current := ServiceStatusOf(x, running);
        var mail := StatusMail(cfg.emailSubject, Service, x, current, Previous(prev.records, x));
        GrowsBy(prev.effects, [mail], 1);
        if current == Stopped && cfg.autoRestartService && cfg.maxRestartAttempts >= 1 {
          var ep := RestartEpisode(ok, x, cfg.maxRestartAttempts, cfg.emailSubject).value;
          EpisodePhase(ok, x, cfg.maxRestartAttempts, cfg.emailSubject);
          GrowsBy(prev.effects + [mail], ep, 1);
          GrowsTrans(prev.effects, prev.effects + [mail], r.effects, 1);
        }
        GrowsTrans(t.effects, prev.effects, r.effects, 1);
      }
    }
  }

  lemma {:induction false} ProcessSweepGrows(t: Tracker, names: seq<string>, running: seq<string>, subject: string)
    decreases |names|
    ensures Grows(t.effects, ProcessSweep(t, names, running, subject).effects, 2)
  {
    if names == [] {
      assert t.effects[..|t.effects|] == t.effects;
    } else {
      var prev := ProcessSweep(t, names[..|names| - 1], running, subject);
      var x := names[|names| - 1];
      ProcessSweepGrows(t, names[..|names| - 1], running, subject);
      if x != "" && Changed(prev.records, x, ProcessStatusOf(x, running)) {
        var mail := StatusMail(subject, Process, x, ProcessStatusOf(x, running), Previous(prev.records, x));
        GrowsBy(prev.effects, [mail], 2);
        GrowsTrans(t.effects, prev.effects, prev.effects + [mail], 2);
      }
    }
  }

  lemma {:induction false} DispatchGrows(g: Gate, os: seq<Overload>, now: int, cfg: Settings, p: nat)
    requires forall i :: 0 <= i < |os| ==> OverloadPhase(os[i].name) == p
    decreases |os|
    ensures Grows(g.effects, Dispatch(g, os, now, cfg).effects, p)
  {
    if os == [] {
      assert g.effects[..|g.effects|] == g.effects;
    } else {
      var prev := Dispatch(g, os[..|os| - 1], now, cfg);
      DispatchGrows(g, os[..|os| - 1], now, cfg, p);
      var o := os[|os| - 1];
      if ShouldMail(prev.lastSent, o.name, now, cfg.emailFrequency, cfg.sendRepeatEmail) {
        GrowsBy(prev.effects, [OverloadMail(cfg.emailSubject, o)], p);
        GrowsTrans(g.effects, prev.effects, prev.effects + [OverloadMail(cfg.emailSubject, o)], p);
      }
    }
  }

  /** check_cpu_ram_usage's calls all belong to its own step. */
  lemma CpuRamPhase(cpu: int, ram: int, cfg: Settings)
    ensures forall i :: 0 <= i < |CpuRamOverloads(cpu, ram, cfg)| ==> OverloadPhase(CpuRamOverloads(cpu, ram, cfg)[i].name) == 3
  {
    var os := CpuRamOverloads(cpu, ram, cfg);
    forall i | 0 <= i < |os| ensures OverloadPhase(os[i].name) == 3 {
      assert os[i] in os;
    }
  }

  /** check_disk_space's calls all belong to its own step, after CPU and RAM. */
  lemma DiskPhase(parts: seq<Partition>, thresholds: map<string, int>)
    ensures forall i :: 0 <= i < |DiskOverloads(parts, thresholds)| ==> OverloadPhase(DiskOverloads(parts, thresholds)[i].name) == 4
  {
    var os := DiskOverloads(parts, thresholds);
    DiskOverloadsExact(parts, thresholds);
    forall i | 0 <= i < |os| ensures OverloadPhase(os[i].name) == 4 {
      assert os[i] in os;
      var p :| p in parts && DiskOver(p, thresholds) && os[i] == DiskOverload(p, thresholds);
      assert os[i].name[0] == 'D';
    }
  }

  lemma GenerateGrows(s: Schedule, cfg: Settings, now: int)
    ensures Grows(s.effects, Generate(s, cfg, now).effects, 5)
  {
    match ReportDue(cfg, now, s.lastReportTime)
    case Some(k) => GrowsBy(s.effects, [ReportMail(cfg.emailSubject, k)], 5);
    case None => assert s.effects[..|s.effects|] == s.effects;
  }

  /** Phases do not decrease from position lo on. */
  predicate InOrder(s: seq<Effect>, lo: int) {
    forall i :: 0 < i < |s| && lo < i ==> Phase(s[i - 1]) <= Phase(s[i])
  }

  /** In-order effects never step back: an effect after another one, past lo,
      belongs to the same step or a later one. */
  lemma {:induction false} InOrderSorted(s: seq<Effect>, lo: int, i: int, j: int)
    requires InOrder(s, lo) && 0 <= lo <= i <= j < |s|
    decreases j - i
    ensures Phase(s[i]) <= Phase(s[j])
  {
    if i < j {
      InOrderSorted(s, lo, i, j - 1);
      assert Phase(s[j - 1]) <= Phase(s[j]);
    }
  }

  /** The effects from position n on: the scheduled refresh, then effects of
      phases 1..top in order. */
  predicate Shape(s: seq<Effect>, n: int, top: nat) {
    0 <= n < |s| && s[n] == RefreshScheduled && InOrder(s, n)
    && forall i :: n < i < |s| ==> 1 <= Phase(s[i]) <= top
  }

  /** Appending effects of a phase p no lower than those before keeps the shape. */
  lemma ShapeGrow(a: seq<Effect>, b: seq<Effect>, n: int, top: nat, p: nat)
    requires Shape(a, n, top) && top <= p && 1 <= p && Grows(a, b, p)
    ensures Shape(b, n, p) && b[..n] == a[..n]
  {
    assert b[..n] == b[..|a|][..n];
    forall i | 0 < i < |b| && n < i ensures Phase(b[i - 1]) <= Phase(b[i]) {
      if i < |a| {
        assert b[i - 1] == a[i - 1] && b[i] == a[i];
      } else if i == |a| {
        assert b[i - 1] == a[i - 1];
      }
    }
    forall i | n < i < |b| ensures 1 <= Phase(b[i]) <= p {
      if i < |a| {
        assert b[i] == a[i];
      }
    }
    assert b[n] == a[n];
  }

  /** A cycle first schedules the refresh, then does all of the service step,
      then the process step, then the CPU and RAM check, then the disk check,
      then the reports, and
      ends with the sleep; a cycle that ends the thread stops within the
      service step. */
  lemma CycleOrder(c: Core, s: Sample, cfg: Settings)
    ensures var r := Cycle(c, s, cfg);
      var body := if r.1 then r.0.effects[..|r.0.effects| - 1] else r.0.effects;
      && |c.effects| < |body| <= |r.0.effects|
      && body[..|c.effects|] == c.effects
      && Shape(body, |c.effects|, if r.1 then 5 else 1)
      && (r.1 ==> r.0.effects[|r.0.effects| - 1] == Sleep(PollInterval))
  {
    var e0 := c.effects + [RefreshScheduled];
    var n := |c.effects|;
    var t0 := Tracker(c.serviceRecords, e0, false);
    var t1 := ServiceSweep(t0, c.services, s.serviceRunning, cfg, s.restartOk);
    assert e0[..n] == c.effects;
    assert Shape(e0, n, 1);
    ServiceSweepGrows(t0, c.services, s.serviceRunning, cfg, s.restartOk);
    ShapeGrow(e0, t1.effects, n, 1, 1);
    if !t1.crashed {
      var t2 := ProcessSweep(Tracker(c.processRecords, t1.effects, false), c.processes, s.processNames, cfg.emailSubject);
      ProcessSweepGrows(Tracker(c.processRecords, t1.effects, false), c.processes, s.processNames, cfg.emailSubject);
      ShapeGrow(t1.effects, t2.effects, n, 1, 2);
      var g1 := Dispatch(Gate(c.lastSent, t2.effects), CpuRamOverloads(s.cpu, s.ram, cfg), s.now, cfg);
      CpuRamPhase(s.cpu, s.ram, cfg);
      DispatchGrows(Gate(c.lastSent, t2.effects), CpuRamOverloads(s.cpu, s.ram, cfg), s.now, cfg, 3);
      ShapeGrow(t2.effects, g1.effects, n, 2, 3);
      var g2 := Dispatch(g1, DiskOverloads(s.partitions, c.diskThresholds), s.now, cfg);
      DiskPhase(s.partitions, c.diskThresholds);
      DispatchGrows(g1, DiskOverloads(s.partitions, c.diskThresholds), s.now, cfg, 4);
      ShapeGrow(g1.effects, g2.effects, n, 3, 4);
      var sch := Generate(Schedule(c.lastReportTime, g2.effects), cfg, s.now);
      GenerateGrows(Schedule(c.lastReportTime, g2.effects), cfg, s.now);
      ShapeGrow(g2.effects, sch.effects, n, 4, 5);
      var fin := sch.effects + [Sleep(PollInterval)];
      assert fin[..|fin| - 1] == sch.effects;
    }
  }

  /** With auto-restart off or at least one attempt allowed, no cycle ends the
      thread, and afterwards every non-empty monitored name holds its current
      status. */
  lemma CycleRecords(c: Core, s: Sample, cfg: Settings)
    requires NoCrash(cfg)
    ensures var r := Cycle(c, s, cfg);
      && r.1
      && (forall n :: n != "" && n in c.services ==> n in r.0.serviceRecords && r.0.serviceRecords[n] == ServiceStatusOf(n, s.serviceRunning))
      && (forall n :: n != "" && n in c.processes ==> n in r.0.processRecords && r.0.processRecords[n] == ProcessStatusOf(n, s.processNames))
  {
    var t0 := Tracker(c.serviceRecords, c.effects + [RefreshScheduled], false);
    ServiceSweepRecords(t0, c.services, s.serviceRunning, cfg, s.restartOk);
    var t1 := ServiceSweep(t0, c.services, s.serviceRunning, cfg, s.restartOk);
    ProcessSweepRecords(Tracker(c.processRecords, t1.effects, false), c.processes, s.processNames, cfg.emailSubject);
  }

  // ---------------------------------------------------------------------------
  // Overload mails over a run

  lemma {:induction false} CountNone(d: seq<Effect>, p: nat, k: string)
    requires p != 3 && p != 4 && forall i :: 0 <= i < |d| ==> Phase(d[i]) == p
    ensures Count(d, OverloadMailFor(k)) == 0
  {
    if d != [] {
      CountNone(d[1..], p, k);
    }
  }

  /** Effects of steps other than the overload checks add no overload mail. */
  lemma GrowsNoOverload(a: seq<Effect>, b: seq<Effect>, p: nat, k: string)
    requires p != 3 && p != 4 && Grows(a, b, p)
    ensures Count(b, OverloadMailFor(k)) == Count(a, OverloadMailFor(k))
  {
    var d := b[|a|..];
    assert b == a + d;
    CountAppend(a, d, OverloadMailFor(k));
    CountNone(d, p, k);
  }

  /** The overload-mail invariant on the whole state. */
  predicate KeptOnce(c: Core, k: string) {
    MailedAtMostOnce(Gate(c.lastSent, c.effects), k)
  }

  /** Effects of a phase other than the overload checks keep the invariant. */
  lemma GrowsKeepsOnce(c: Core, after: seq<Effect>, p: nat, k: string)
    requires p != 3 && p != 4 && Grows(c.effects, after, p) && KeptOnce(c, k)
    ensures KeptOnce(c.(effects := after), k)
  {
    GrowsNoOverload(c.effects, after, p, k);
  }

  lemma ServicesKeepOnce(c: Core, running: set<string>, ok: RestartProbe, cfg: Settings, k: string)
    requires KeptOnce(c, k)
    ensures KeptOnce(ServicesChecked(c, running, ok, cfg).0, k)
  {
    ServiceSweepGrows(Tracker(c.serviceRecords, c.effects, false), c.services, running, cfg, ok);
    var t := ServiceSweep(Tracker(c.serviceRecords, c.effects, false), c.services, running, cfg, ok);
    GrowsKeepsOnce(c, t.effects, 1, k);
  }

  lemma ProcessesKeepOnce(c: Core, running: seq<string>, cfg: Settings, k: string)
    requires KeptOnce(c, k)
    ensures KeptOnce(ProcessesChecked(c, running, cfg), k)
  {
    ProcessSweepGrows(Tracker(c.processRecords, c.effects, false), c.processes, running, cfg.emailSubject);
    var t := ProcessSweep(Tracker(c.processRecords, c.effects, false), c.processes, running, cfg.emailSubject);
    GrowsKeepsOnce(c, t.effects, 2, k);
  }

  lemma ReportsKeepOnce(c: Core, now: int, cfg: Settings, k: string)
    requires KeptOnce(c, k)
    ensures KeptOnce(ReportsChecked(c, now, cfg), k)
  {
    GenerateGrows(Schedule(c.lastReportTime, c.effects), cfg, now);
    var sch := Generate(Schedule(c.lastReportTime, c.effects), cfg, now);
    GrowsKeepsOnce(c, sch.effects, 5, k);
  }

  /** One cycle keeps "each key mailed at most as often as its entry says"
      when repeat mails are off. */
  lemma CycleKeepsOnce(c: Core, s: Sample, cfg: Settings, k: string)
    requires !cfg.sendRepeatEmail && KeptOnce(c, k)
    ensures KeptOnce(Cycle(c, s, cfg).0, k)
  {
    var e0 := c.effects + [RefreshScheduled];
    GrowsBy(c.effects, [RefreshScheduled], 0);
    GrowsKeepsOnce(c, e0, 0, k);
    var svc := ServicesChecked(c.(effects := e0), s.serviceRunning, s.restartOk, cfg);
    ServicesKeepOnce(c.(effects := e0), s.serviceRunning, s.restartOk, cfg, k);
    if svc.1 {
      var c2 := ProcessesChecked(svc.0, s.processNames, cfg);
      ProcessesKeepOnce(svc.0, s.processNames, cfg, k);
      DispatchKeepsOnce(Gate(c2.lastSent, c2.effects), CpuRamOverloads(s.cpu, s.ram, cfg), s.now, cfg, k);
      var c3 := CpuRamChecked(c2, s.cpu, s.ram, s.now, cfg);
      DispatchKeepsOnce(Gate(c3.lastSent, c3.effects), DiskOverloads(s.partitions, c3.diskThresholds), s.now, cfg, k);
      var c4 := DiskChecked(c3, s.partitions, s.now, cfg);
      var c5 := ReportsChecked(c4, s.now, cfg);
      ReportsKeepOnce(c4, s.now, cfg, k);
      GrowsBy(c5.effects, [Sleep(PollInterval)], 1);
      GrowsKeepsOnce(c5, c5.effects + [Sleep(PollInterval)], 1, k);
    }
  }

  /** With repeat mails off, over any number of cycles of a freshly started
      application, each overload key is mailed at most once. */
  lemma {:induction false} RunMailsOverloadAtMostOnce(c: Core, samples: seq<Sample>, cfg: Settings, k: string)
    requires !cfg.sendRepeatEmail && KeptOnce(c, k)
    decreases |samples|
    ensures var r := Run(c, samples, cfg).0;
      KeptOnce(r, k) && Count(r.effects, OverloadMailFor(k)) <= 1
  {
    if samples != [] {
      var prev := Run(c, samples[..|samples| - 1], cfg);
      RunMailsOverloadAtMostOnce(c, samples[..|samples| - 1], cfg, k);
      if prev.1 {
        CycleKeepsOnce(prev.0, samples[|samples| - 1], cfg, k);
      }
    }
  }
}
