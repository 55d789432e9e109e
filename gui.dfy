/** ServiceMonitorApp (app/gui.py): the monitoring state the application keeps
    and the methods that change it.  Every method is proved against the
    specification functions of the tracker, recovery, gate, threshold, report
    and registry modules.  What psutil, win32serviceutil, the dialogs and the
    clock would answer is passed in. */
module Gui {
  import opened Types
  import opened Recovery
  import opened StatusTracker
  import opened Alerts
  import opened Thresholds
  import opened Reports
  import opened TargetRegistry

  class ServiceMonitorApp {
    /** The Tk variables the core reads. */
    var settings: Settings
    /** The last scan results (self.services, self.processes). */
    var services: seq<string>
    var processes: seq<string>
    /** The rows of the scanned and the monitored list boxes. */
    var scannedServices: seq<string>
    var scannedProcesses: seq<string>
    var monitoredServices: seq<string>
    var monitoredProcesses: seq<string>
    /** The names the checks iterate over. */
    var selectedServices: seq<string>
    var selectedProcesses: seq<string>
    var diskThresholds: map<string, int>
    var lastServiceStatus: map<string, Status>
    var lastProcessStatus: map<string, Status>
    var lastEmailSent: map<string, int>
    /** REPORTS/LastReportTime of the configuration. */
    var lastReportTime: int
    /** Everything the application has done outwardly, in order. */
    var effects: seq<Effect>

    /** The state __init__ leaves: the monitored names as loaded from the
        configuration, no status record, nothing mailed yet. */
    constructor (cfg: Settings, loadedServices: seq<string>, loadedProcesses: seq<string>, reportTime: int)
      ensures settings == cfg && selectedServices == loadedServices && selectedProcesses == loadedProcesses
      ensures services == [] && processes == [] && scannedServices == [] && scannedProcesses == []
      ensures monitoredServices == [] && monitoredProcesses == []
      ensures diskThresholds == map[] && lastEmailSent == map[]
      ensures lastServiceStatus == map[] && lastProcessStatus == map[]
      ensures lastReportTime == reportTime && effects == []
    {
      settings := cfg;
      services := [];
      processes := [];
      scannedServices := [];
      scannedProcesses := [];
      monitoredServices := [];
      monitoredProcesses := [];
      selectedServices := loadedServices;
      selectedProcesses := loadedProcesses;
      diskThresholds := map[];
      lastServiceStatus := map[];
      lastProcessStatus := map[];
      lastEmailSent := map[];
      lastReportTime := reportTime;
      effects := [];
    }

    /** send_email: one mail under the configured subject. */
    method SendEmail(alert: Alert)
      modifies this`effects
      ensures effects == old(effects) + [Types.SendEmail(settings, alert)]
    {
      effects := effects + [Types.SendEmail(settings, alert)];
    }

    // -------------------------------------------------------------------------
    // Scanning and the search filter

    method ScanServices(found: seq<string>)
      modifies this`services, this`scannedServices, this`scannedProcesses
      ensures services == found && scannedServices == found
      ensures scannedProcesses == old(scannedProcesses)
    {
      services := found;
      UpdateFilteredItems("", Service);
      EmptySearchKeepsAll(services);
    }

    method ScanProcesses(found: seq<string>)
      modifies this`processes, this`scannedServices, this`scannedProcesses
      ensures processes == found && scannedProcesses == found
      ensures scannedServices == old(scannedServices)
    {
      processes := found;
      UpdateFilteredItems("", Process);
      EmptySearchKeepsAll(processes);
    }

    /** update_filtered_items: the scanned list box of the kind shows the
        scanned names that match the search text; the other is untouched. */
    method UpdateFilteredItems(search: string, kind: TargetKind)
      modifies this`scannedServices, this`scannedProcesses
      ensures kind == Service ==> scannedServices == Filter(services, search) && scannedProcesses == old(scannedProcesses)
      ensures kind == Process ==> scannedProcesses == Filter(processes, search) && scannedServices == old(scannedServices)
    {
      if kind == Service {
        scannedServices := Filter(services, search);
      } else {
        scannedProcesses := Filter(processes, search);
      }
    }

    // -------------------------------------------------------------------------
    // The registry

    /** add_to_monitor_list for the chosen rows of both scanned list boxes. */
    method AddToMonitorList(serviceRows: seq<int>, processRows: seq<int>)
      requires forall k :: 0 <= k < |serviceRows| ==> 0 <= serviceRows[k] < |scannedServices|
      requires forall k :: 0 <= k < |processRows| ==> 0 <= processRows[k] < |scannedProcesses|
      modifies this`monitoredServices, this`selectedServices, this`lastServiceStatus
      modifies this`monitoredProcesses, this`selectedProcesses, this`lastProcessStatus
      ensures Registry(monitoredServices, selectedServices, lastServiceStatus)
           == AddAll(old(Registry(monitoredServices, selectedServices, lastServiceStatus)), Picked(serviceRows, scannedServices))
      ensures Registry(monitoredProcesses, selectedProcesses, lastProcessStatus)
           == AddAll(old(Registry(monitoredProcesses, selectedProcesses, lastProcessStatus)), Picked(processRows, scannedProcesses))
    {
      ghost var svc := Registry(monitoredServices, selectedServices, lastServiceStatus);
      ghost var prc := Registry(monitoredProcesses, selectedProcesses, lastProcessStatus);
      ghost var ps := Picked(serviceRows, scannedServices);
      for k := 0 to |serviceRows|
        invariant Registry(monitoredServices, selectedServices, lastServiceStatus) == AddAll(svc, ps[..k])
        invariant Registry(monitoredProcesses, selectedProcesses, lastProcessStatus) == prc
      {
        var name := scannedServices[serviceRows[k]];
        if name != "" && name !in monitoredServices {
          monitoredServices := monitoredServices + [name];
          selectedServices := selectedServices + [name];
          lastServiceStatus := lastServiceStatus[name := Running];
        }
        assert ps[..k + 1][..k] == ps[..k];
      }
      assert ps[..|serviceRows|] == ps;
      ghost var pp := Picked(processRows, scannedProcesses);
      for k := 0 to |processRows|
        invariant Registry(monitoredProcesses, selectedProcesses, lastProcessStatus) == AddAll(prc, pp[..k])
        invariant Registry(monitoredServices, selectedServices, lastServiceStatus) == AddAll(svc, ps)
      {
        var name := scannedProcesses[processRows[k]];
        if name != "" && name !in monitoredProcesses {
          monitoredProcesses := monitoredProcesses + [name];
          selectedProcesses := selectedProcesses + [name];
          lastProcessStatus := lastProcessStatus[name := Running];
        }
        assert pp[..k + 1][..k] == pp[..k];
      }
      assert pp[..|processRows|] == pp;
    }

    /** remove_from_monitor_list for the chosen rows of both monitored list
        boxes.  `ok` is false when a KeyError escaped; after one in the
        service loop the process rows are not touched. */
    method RemoveFromMonitorList(serviceRows: seq<int>, processRows: seq<int>) returns (ok: bool)
      requires ValidRows(serviceRows, |monitoredServices|) && ValidRows(processRows, |monitoredProcesses|)
      modifies this`monitoredServices, this`selectedServices, this`lastServiceStatus
      modifies this`monitoredProcesses, this`selectedProcesses, this`lastProcessStatus
      ensures var ds := RemoveRows(old(Registry(monitoredServices, selectedServices, lastServiceStatus)), serviceRows);
        && Registry(monitoredServices, selectedServices, lastServiceStatus) == ds.reg
        && (if ds.ok then
              var dp := RemoveRows(old(Registry(monitoredProcesses, selectedProcesses, lastProcessStatus)), processRows);
              Registry(monitoredProcesses, selectedProcesses, lastProcessStatus) == dp.reg && ok == dp.ok
            else
              !ok && Registry(monitoredProcesses, selectedProcesses, lastProcessStatus)
                     == old(Registry(monitoredProcesses, selectedProcesses, lastProcessStatus)))
    {
      ok := RemoveServiceRows(serviceRows);
      if ok {
        ok := RemoveProcessRows(processRows);
      }
    }

    /** One row of the service loop of remove_from_monitor_list: the row goes,
        and so do the first occurrence of its name in the selection and the
        name's record; `ok` is false at the KeyError of a selected name that
        has no record. */
    method RemoveServiceRow(i: int) returns (ok: bool)
      requires 0 <= i < |monitoredServices|
      modifies this`monitoredServices, this`selectedServices, this`lastServiceStatus
      ensures var d := RemoveRow(old(Registry(monitoredServices, selectedServices, lastServiceStatus)), i);
        Registry(monitoredServices, selectedServices, lastServiceStatus) == d.reg && ok == d.ok
    {
      var name := monitoredServices[i];
      monitoredServices := monitoredServices[..i] + monitoredServices[i + 1..];
      if name in selectedServices {
        selectedServices := RemoveFirst(selectedServices, name);
        if name !in lastServiceStatus {
          return false;
        }
        lastServiceStatus := lastServiceStatus - {name};
      }
      return true;
    }

    /** The service loop of remove_from_monitor_list: the chosen rows, last
        first.  It stops with `ok` false at a KeyError. */
    method RemoveServiceRows(rows: seq<int>) returns (ok: bool)
      requires ValidRows(rows, |monitoredServices|)
      modifies this`monitoredServices, this`selectedServices, this`lastServiceStatus
      ensures var d := RemoveRows(old(Registry(monitoredServices, selectedServices, lastServiceStatus)), rows);
        Registry(monitoredServices, selectedServices, lastServiceStatus) == d.reg && ok == d.ok
    {
      ghost var start := Registry(monitoredServices, selectedServices, lastServiceStatus);
      var k := |rows|;
      assert rows[..k] == rows;
      while k > 0
        invariant 0 <= k <= |rows|
        invariant ValidRows(rows[..k], |monitoredServices|)
        invariant RemoveRows(Registry(monitoredServices, selectedServices, lastServiceStatus), rows[..k]) == RemoveRows(start, rows)
      {
        RemoveRowsStep(Registry(monitoredServices, selectedServices, lastServiceStatus), rows, k);
        ok := RemoveServiceRow(rows[k - 1]);
        if !ok {
          return;
        }
        k := k - 1;
      }
      assert rows[..0] == [];
      return true;
    }

    /** One row of the process loop of remove_from_monitor_list: the row goes,
        and so do the first occurrence of its name in the selection and the
        name's record; `ok` is false at the KeyError of a selected name that
        has no record. */
    method RemoveProcessRow(i: int) returns (ok: bool)
      requires 0 <= i < |monitoredProcesses|
      modifies this`monitoredProcesses, this`selectedProcesses, this`lastProcessStatus
      ensures var d := RemoveRow(old(Registry(monitoredProcesses, selectedProcesses, lastProcessStatus)), i);
        Registry(monitoredProcesses, selectedProcesses, lastProcessStatus) == d.reg && ok == d.ok
    {
      var name := monitoredProcesses[i];
      monitoredProcesses := monitoredProcesses[..i] + monitoredProcesses[i + 1..];
      if name in selectedProcesses {
        selectedProcesses := RemoveFirst(selectedProcesses, name);
        if name !in lastProcessStatus {
          return false;
        }
        lastProcessStatus := lastProcessStatus - {name};
      }
      return true;
    }

    /** The process loop of remove_from_monitor_list: the chosen rows, last
        first.  It stops with `ok` false at a KeyError. */
    method RemoveProcessRows(rows: seq<int>) returns (ok: bool)
      requires ValidRows(rows, |monitoredProcesses|)
      modifies this`monitoredProcesses, this`selectedProcesses, this`lastProcessStatus
      ensures var d := RemoveRows(old(Registry(monitoredProcesses, selectedProcesses, lastProcessStatus)), rows);
        Registry(monitoredProcesses, selectedProcesses, lastProcessStatus) == d.reg && ok == d.ok
    {
      ghost var start := Registry(monitoredProcesses, selectedProcesses, lastProcessStatus);
      var k := |rows|;
      assert rows[..k] == rows;
      while k > 0
        invariant 0 <= k <= |rows|
        invariant ValidRows(rows[..k], |monitoredProcesses|)
        invariant RemoveRows(Registry(monitoredProcesses, selectedProcesses, lastProcessStatus), rows[..k]) == RemoveRows(start, rows)
      {
        RemoveRowsStep(Registry(monitoredProcesses, selectedProcesses, lastProcessStatus), rows, k);
        ok := RemoveProcessRow(rows[k - 1]);
        if !ok {
          return;
        }
        k := k - 1;
      }
      assert rows[..0] == [];
      return true;
    }

    /** set_disk_thresholds: each partition with a filesystem asks for a
        threshold; `answers` holds what the dialog returned per device (a
        missing device is a cancelled dialog). */
    method SetDiskThresholds(partitions: seq<Partition>, answers: map<string, Percent>)
      modifies this`diskThresholds
      ensures diskThresholds == ThresholdUpdates(old(diskThresholds), partitions, answers)
    {
      ghost var before := diskThresholds;
      for k := 0 to |partitions|
        invariant diskThresholds == ThresholdUpdates(before, partitions[..k], answers)
      {
        var p := partitions[k];
        if p.fstype != "" {
          if p.device in answers {
            diskThresholds := diskThresholds[p.device := answers[p.device]];
          }
        }
        assert partitions[..k + 1][..k] == partitions[..k];
      }
      assert partitions[..|partitions|] == partitions;
    }

    // -------------------------------------------------------------------------
    // The status tracker and the recovery controller

    /** One name of the check_services loop: a status change is recorded and
        mailed, and a change to Stopped with auto-restart on runs the restart
        attempts; `raised` is true when an exception escaped them. */
    method CheckService(name: string, probe: ServiceProbe, ok: RestartProbe) returns (raised: bool)
      modifies this`lastServiceStatus, this`effects
      ensures Tracker(lastServiceStatus, effects, raised)
           == ServiceStep(Tracker(old(lastServiceStatus), old(effects), false), name, RunningServices(probe), settings, ok)
    {
      ghost var prev := Tracker(lastServiceStatus, effects, false);
      ghost var running := RunningServices(probe);
      raised := false;
      if name != "" {
        var current := if IsServiceRunning(name, probe) then Running else Stopped;
        assert current == ServiceStatusOf(name, running);
        if name !in lastServiceStatus || current != lastServiceStatus[name] {
          ghost var t1 := Track(prev, settings.emailSubject, Service, name, current);
          HandleServiceStatusChange(name, current);
          lastServiceStatus := lastServiceStatus[name := current];
          assert Tracker(lastServiceStatus, effects, false) == t1;
          ServiceStepChanged(prev, name, running, settings, ok);
          if current == Stopped && settings.autoRestartService {
            raised := AttemptServiceRestart(name, ok);
          }
        }
      }
    }

    /** check_services, with the service probe of this sweep.  `alive` is
        false when an exception escaped a restart attempt; the names after it
        are then not checked. */
    method CheckServices(probe: ServiceProbe, ok: RestartProbe) returns (alive: bool)
      modifies this`lastServiceStatus, this`effects
      ensures Tracker(lastServiceStatus, effects, !alive)
           == ServiceSweep(Tracker(old(lastServiceStatus), old(effects), false), selectedServices, RunningServices(probe), settings, ok)
    {
      ghost var t0 := Tracker(lastServiceStatus, effects, false);
      ghost var running := RunningServices(probe);
      alive := true;
      for k := 0 to |selectedServices|
        invariant Tracker(lastServiceStatus, effects, false) == ServiceSweep(t0, selectedServices[..k], running, settings, ok)
      {
        ServiceSweepSnoc(t0, selectedServices, k, running, settings, ok);
        var raised := CheckService(selectedServices[k], probe, ok);
        if raised {
          alive := false;
          CrashedSweepStays(t0, selectedServices, k + 1, running, settings, ok);
          return;
        }
      }
      assert selectedServices[..|selectedServices|] == selectedServices;
    }

    /** check_processes, with the snapshot of running process names. */
    method CheckProcesses(running: seq<string>)
      modifies this`lastProcessStatus, this`effects
      ensures Tracker(lastProcessStatus, effects, false)
           == ProcessSweep(Tracker(old(lastProcessStatus), old(effects), false), selectedProcesses, running, settings.emailSubject)
    {
      ghost var t0 := Tracker(lastProcessStatus, effects, false);
      for k := 0 to |selectedProcesses|
        invariant Tracker(lastProcessStatus, effects, false) == ProcessSweep(t0, selectedProcesses[..k], running, settings.emailSubject)
      {
        var name := selectedProcesses[k];
        assert selectedProcesses[..k + 1][..k] == selectedProcesses[..k];
        if name != "" {
          var current := if name in running then Running else NotRunning;
          if name !in lastProcessStatus || current != lastProcessStatus[name] {
            HandleProcessStatusChange(name, current);
            lastProcessStatus := lastProcessStatus[name := current];
          }
        }
      }
      assert selectedProcesses[..|selectedProcesses|] == selectedProcesses;
    }

    /** handle_service_status_change: the mail names the old record, or
        "Unknown" when there is none. */
    method HandleServiceStatusChange(name: string, status: Status)
      modifies this`effects
      ensures effects == old(effects) + [StatusMail(settings.emailSubject, Service, name, status, Previous(lastServiceStatus, name))]
    {
      var previous := Previous(lastServiceStatus, name);
      assert Service.Label() + " " + status.Label() == "Service " + status.Label();
      SendEmail(StatusChange(Service, name, status, previous, "Service " + status.Label()));
    }

    method HandleProcessStatusChange(name: string, status: Status)
      modifies this`effects
      ensures effects == old(effects) + [StatusMail(settings.emailSubject, Process, name, status, Previous(lastProcessStatus, name))]
    {
      var previous := Previous(lastProcessStatus, name);
      assert Process.Label() + " " + status.Label() == "Process " + status.Label();
      SendEmail(StatusChange(Process, name, status, previous, "Process " + status.Label()));
    }

    /** attempt_service_restart: up to max restart calls, a back-off sleep
        after each failure, a stop at the first success, then one report.
        `raised` is the UnboundLocalError of a loop that never ran. */
    method AttemptServiceRestart(name: string, ok: RestartProbe) returns (raised: bool)
      modifies this`effects
      ensures raised <==> settings.maxRestartAttempts < 1
      ensures raised ==> effects == old(effects)
      ensures !raised ==> effects == old(effects) + RestartEpisode(ok, name, settings.maxRestartAttempts, settings.emailSubject).value
    {
      var max := settings.maxRestartAttempts;
      var success := false;
      var attempt: Option<int> := None;
      var a := 1;
      while a <= max
        invariant 1 <= a && (a == 1 || a <= max + 1)
        invariant attempt == if a == 1 then None else Some(a - 1)
        invariant !success
        invariant forall j :: 1 <= j < a ==> !ok(name, j)
        invariant effects == old(effects) + FailedTries(name, a - 1)
      {
        attempt := Some(a);
        effects := effects + [RestartCall(name, a)];
        if ok(name, a) {
          success := true;
          break;
        }
        if a == max {
          success := false;
        }
        effects := effects + [Sleep(RestartBackoff)];
        a := a + 1;
      }
      if attempt == None {
        raised := true;
        return;
      }
      raised := false;
      SendRestartReport(name, success, attempt.value);
    }

    method SendRestartReport(name: string, success: bool, attempt: int)
      modifies this`effects
      ensures effects == old(effects) + [RestartReportMail(settings.emailSubject, name, success, attempt)]
    {
      var status := if success then "Success" else "Failure";
      SendEmail(RestartReport(name, success, attempt, "Service Restart " + status + ": " + name));
    }

    // -------------------------------------------------------------------------
    // The threshold evaluator and the rate gate

    method CheckCpuRamUsage(cpu: int, ram: int, now: int)
      modifies this`lastEmailSent, this`effects
      ensures Gate(lastEmailSent, effects) == Dispatch(old(Gate(lastEmailSent, effects)), CpuRamOverloads(cpu, ram, settings), now, settings)
    {
      ghost var g0 := Gate(lastEmailSent, effects);
      ghost var cpuPart := if cpu > settings.cpuThreshold then [Overload("CPU Usage", cpu, settings.cpuThreshold)] else [];
      ghost var ramPart := if ram > settings.ramThreshold then [Overload("RAM Usage", ram, settings.ramThreshold)] else [];
      if cpu > settings.cpuThreshold {
        HandleHardwareOverload("CPU Usage", cpu, settings.cpuThreshold, now);
        DispatchOne(g0, Overload("CPU Usage", cpu, settings.cpuThreshold), now, settings);
      }
      ghost var g1 := Gate(lastEmailSent, effects);
      assert g1 == Dispatch(g0, cpuPart, now, settings);
      if ram > settings.ramThreshold {
        HandleHardwareOverload("RAM Usage", ram, settings.ramThreshold, now);
        DispatchOne(g1, Overload("RAM Usage", ram, settings.ramThreshold), now, settings);
      }
      DispatchAppend(g0, cpuPart, ramPart, now, settings);
    }

    /** check_disk_space over the partitions as read, in order. */
    method CheckDiskSpace(partitions: seq<Partition>, now: int)
      modifies this`lastEmailSent, this`effects
      ensures Gate(lastEmailSent, effects) == Dispatch(old(Gate(lastEmailSent, effects)), DiskOverloads(partitions, diskThresholds), now, settings)
    {
      ghost var g0 := Gate(lastEmailSent, effects);
      for k := 0 to |partitions|
        invariant Gate(lastEmailSent, effects) == Dispatch(g0, DiskOverloads(partitions[..k], diskThresholds), now, settings)
      {
        var p := partitions[k];
        ghost var before := DiskOverloads(partitions[..k], diskThresholds);
        ghost var g := Gate(lastEmailSent, effects);
        assert partitions[..k + 1][..k] == partitions[..k];
        if p.device in diskThresholds {
          var usage := p.usedPercent;
          if usage > diskThresholds[p.device] {
            HandleHardwareOverload("Disk Space " + p.device, usage, diskThresholds[p.device], now);
            DispatchOne(g, DiskOverload(p, diskThresholds), now, settings);
            DispatchAppend(g0, before, [DiskOverload(p, diskThresholds)], now, settings);
          } else {
            assert before + [] == before;
          }
        } else {
          assert before + [] == before;
        }
      }
      assert partitions[..|partitions|] == partitions;
    }

    /** The rate gate of handle_hardware_overload, with the clock reading `now`. */
    method HandleHardwareOverload(name: string, usage: int, threshold: int, now: int)
      modifies this`lastEmailSent, this`effects
      ensures Gate(lastEmailSent, effects) == Overloaded(old(Gate(lastEmailSent, effects)), Overload(name, usage, threshold), now, settings)
    {
      if name !in lastEmailSent || now - lastEmailSent[name] > settings.emailFrequency * 60 {
        if settings.sendRepeatEmail || name !in lastEmailSent {
          SendEmail(HardwareOverload(name, usage, threshold, "Hardware Overload: " + name));
          lastEmailSent := lastEmailSent[name := now];
        }
      }
    }

    // -------------------------------------------------------------------------
    // The report scheduler

    method GenerateReportsIfNeeded(now: int)
      modifies this`lastReportTime, this`effects
      ensures Schedule(lastReportTime, effects) == Generate(old(Schedule(lastReportTime, effects)), settings, now)
    {
      if !settings.reportActive {
        return;
      }
      var last := lastReportTime;
      if settings.dailyReport && now - last >= DailyPeriod {
        GenerateReport(Daily, now);
      } else if settings.weeklyReport && now - last >= WeeklyPeriod {
        GenerateReport(Weekly, now);
      } else if settings.monthlyReport && now - last >= MonthlyPeriod {
        GenerateReport(Monthly, now);
      }
    }

    /** generate_report: the mail, then LastReportTime := now. */
    method GenerateReport(kind: ReportKind, now: int)
      modifies this`lastReportTime, this`effects
      ensures effects == old(effects) + [ReportMail(settings.emailSubject, kind)]
      ensures lastReportTime == now
    {
      SendEmail(SystemReport(kind, kind.Label() + " System Report"));
      lastReportTime := now;
    }

    /** send_instant_report: a mail that leaves LastReportTime alone. */
    method SendInstantReport()
      modifies this`effects
      ensures effects == old(effects) + [ReportMail(settings.emailSubject, Instant)]
    {
      SendEmail(SystemReport(Instant, Instant.Label() + " System Report"));
    }
  }
}
