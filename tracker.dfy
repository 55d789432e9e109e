/** The status tracker: check_services and check_processes (app/gui.py:674-707,
    app/monitoring.py:19-37) as folds over the monitored names.  Each name's
    fresh status is compared with its record; on a missing record or a
    difference the change handler mails, the record is overwritten, and for a
    service that is now Stopped an auto-restart episode may follow. */
module StatusTracker {
  import opened Types
  import opened Recovery

  /** The part of the application a sweep reads and writes. `crashed` records
      that an exception escaped (the restart report's unbound `attempt`); the
      rest of the sweep then does nothing. */
  datatype Tracker = Tracker(records: map<string, Status>, effects: seq<Effect>, crashed: bool)

  /** The test of app/gui.py:678 and :691: no record, or a different one. */
  predicate Changed(records: map<string, Status>, name: string, current: Status) {
    name !in records || records[name] != current
  }

  /** The handler fires for a non-empty name whose status changed. */
  predicate Fires(records: map<string, Status>, name: string, current: Status) {
    name != "" && Changed(records, name, current)
  }

  /** last_*_status.get(name, "Unknown"), read before the record is overwritten. */
  function Previous(records: map<string, Status>, name: string): string {
    if name in records then records[name].Label() else "Unknown"
  }

  /** handle_service_status_change / handle_process_status_change. */
  function StatusMail(subject: string, kind: TargetKind, name: string, status: Status, previous: string): Effect {
    Mail(subject, StatusChange(kind, name, status, previous, kind.Label() + " " + status.Label()))
  }

  function ServiceStatusOf(name: string, running: set<string>): Status {
    if name in running then Running else Stopped
  }

  /** One snapshot of running process names serves the whole sweep. */
  function ProcessStatusOf(name: string, running: seq<string>): Status {
    if name in running then Running else NotRunning
  }

  /** Change detection for one name with the given current status. */
  function Track(t: Tracker, subject: string, kind: TargetKind, name: string, current: Status): Tracker {
    if Changed(t.records, name, current) then
      Tracker(t.records[name := current],
              t.effects + [StatusMail(subject, kind, name, current, Previous(t.records, name))],
              t.crashed)
    else t
  }

  /** One iteration of check_processes' loop. */
  function ProcessStep(t: Tracker, name: string, running: seq<string>, subject: string): Tracker {
    if name == "" then t else Track(t, subject, Process, name, ProcessStatusOf(name, running))
  }

  function ProcessSweep(t: Tracker, names: seq<string>, running: seq<string>, subject: string): Tracker
    decreases |names|
  {
    if names == [] then t
    else ProcessStep(ProcessSweep(t, names[..|names| - 1], running, subject), names[|names| - 1], running, subject)
  }

  /** One iteration of check_services' loop: the mail and the record update,
      then the restart episode for a change to Stopped with auto-restart on. */
  function ServiceStep(t: Tracker, name: string, running: set<string>, cfg: Settings, ok: RestartProbe): Tracker {
    if t.crashed || name == "" then t
    else
      var current := ServiceStatusOf(name, running);
      if !Changed(t.records, name, current) then t
      else
        var t1 := Track(t, cfg.emailSubject, Service, name, current);
        if current == Stopped && cfg.autoRestartService then
          match RestartEpisode(ok, name, cfg.maxRestartAttempts, cfg.emailSubject)
          case None => t1.(crashed := true)
          case Some(ep) => t1.(effects := t1.effects + ep)
        else t1
  }

  function ServiceSweep(t: Tracker, names: seq<string>, running: set<string>, cfg: Settings, ok: RestartProbe): Tracker
    decreases |names|
  {
    if names == [] then t
    else ServiceStep(ServiceSweep(t, names[..|names| - 1], running, cfg, ok), names[|names| - 1], running, cfg, ok)
  }

  /** A sweep cannot crash when no restart episode can leave `attempt` unbound. */
  predicate NoCrash(cfg: Settings) {
    !cfg.autoRestartService || cfg.maxRestartAttempts >= 1
  }

  // ---------------------------------------------------------------------------
  // One step

  /** The mail a detected change sends: subject "<Kind> <status>", the old
      record (or "Unknown") as previous status, the configured subject line;
      the record afterwards is the current status. */
  lemma ServiceChangeMail(t: Tracker, name: string, running: set<string>, cfg: Settings, ok: RestartProbe)
    requires !t.crashed && Fires(t.records, name, ServiceStatusOf(name, running))
    ensures var r := ServiceStep(t, name, running, cfg, ok);
      var current := ServiceStatusOf(name, running);
      && |r.effects| > |t.effects|
      && r.effects[..|t.effects| + 1] == t.effects + [r.effects[|t.effects|]]
      && r.effects[|t.effects|] == Mail(cfg.emailSubject,
           StatusChange(Service, name, current, Previous(t.records, name), "Service " + current.Label()))
      && r.records == t.records[name := current]
  {
    var current := ServiceStatusOf(name, running);
    var r := ServiceStep(t, name, running, cfg, ok);
    var mail := StatusMail(cfg.emailSubject, Service, name, current, Previous(t.records, name));
    assert Track(t, cfg.emailSubject, Service, name, current).effects == t.effects + [mail];
    if current == Stopped && cfg.autoRestartService && cfg.maxRestartAttempts >= 1 {
      var ep := RestartEpisode(ok, name, cfg.maxRestartAttempts, cfg.emailSubject).value;
      assert r.effects == t.effects + [mail] + ep;
    } else {
      assert r.effects == t.effects + [mail];
    }
    assert r.effects[..|t.effects| + 1] == t.effects + [mail];
    assert Service.Label() + " " + current.Label() == "Service " + current.Label();
  }

  /** A name loaded from the configuration has no record, so its first check
      fires, with previous status "Unknown". */
  lemma FirstCheckFiresUnknown(t: Tracker, name: string, running: seq<string>, subject: string)
    requires name != "" && name !in t.records
    ensures ProcessStep(t, name, running, subject).effects
         == t.effects + [StatusMail(subject, Process, name, ProcessStatusOf(name, running), "Unknown")]
  {
  }

  /** The auto-restart runs only on a detected change to Stopped while the flag
      is on; an unchanged Stopped record never starts one. */
  lemma RestartOnlyOnChangeToStopped(t: Tracker, name: string, running: set<string>, cfg: Settings, ok: RestartProbe)
    requires !t.crashed && NoCrash(cfg)
    ensures var r := ServiceStep(t, name, running, cfg, ok);
      var current := ServiceStatusOf(name, running);
      Count(r.effects, RestartReportFor(name)) - Count(t.effects, RestartReportFor(name))
        == if Fires(t.records, name, current) && current == Stopped && cfg.autoRestartService then 1 else 0
  {
    StepAccounting(t, name, running, cfg, ok);
  }

  /** What one service step adds to each count. */
  lemma StepAccounting(t: Tracker, name: string, running: set<string>, cfg: Settings, ok: RestartProbe)
    requires !t.crashed && NoCrash(cfg)
    ensures var r := ServiceStep(t, name, running, cfg, ok);
      var current := ServiceStatusOf(name, running);
      var fires := Fires(t.records, name, current);
      var restarts := fires && current == Stopped && cfg.autoRestartService;
      && !r.crashed
      && r.records == (if fires then t.records[name := current] else t.records)
      && (forall n :: Count(r.effects, StatusMailFor(n))
                        == Count(t.effects, StatusMailFor(n)) + if fires && n == name then 1 else 0)
      && (forall n :: Count(r.effects, RestartReportFor(n))
                        == Count(t.effects, RestartReportFor(n)) + if restarts && n == name then 1 else 0)
      && (forall n :: Count(r.effects, RestartCallFor(n))
                        <= Count(t.effects, RestartCallFor(n)) + if restarts && n == name then cfg.maxRestartAttempts else 0)
  {
    var current := ServiceStatusOf(name, running);
    var r := ServiceStep(t, name, running, cfg, ok);
    if Fires(t.records, name, current) {
      var mail := StatusMail(cfg.emailSubject, Service, name, current, Previous(t.records, name));
      forall p: Pick ensures Count(t.effects + [mail], p) == Count(t.effects, p) + if Picks(mail, p) then 1 else 0 {
        CountAppend(t.effects, [mail], p);
        CountSingle(mail, p);
      }
      if current == Stopped && cfg.autoRestartService {
        var ep := RestartEpisode(ok, name, cfg.maxRestartAttempts, cfg.emailSubject).value;
        EpisodeAccounting(ok, name, cfg.maxRestartAttempts, cfg.emailSubject);
        assert r.effects == (t.effects + [mail]) + ep;
        forall p: Pick ensures Count(r.effects, p) == Count(t.effects + [mail], p) + Count(ep, p) {
          CountAppend(t.effects + [mail], ep, p);
        }
      }
    }
  }

  // ---------------------------------------------------------------------------
  // A whole sweep

  /** After a process sweep every non-empty monitored name holds its current
      status; every other record is as it was. */
  lemma {:induction false} ProcessSweepRecords(t: Tracker, names: seq<string>, running: seq<string>, subject: string)
    ensures var r := ProcessSweep(t, names, running, subject);
      && r.crashed == t.crashed
      && (forall n :: n != "" && n in names ==> n in r.records && r.records[n] == ProcessStatusOf(n, running))
      && (forall n :: !(n != "" && n in names) ==>
            (n in r.records <==> n in t.records) && (n in t.records ==> r.records[n] == t.records[n]))
  {
    if names != [] {
      var init := names[..|names| - 1];
      ProcessSweepRecords(t, init, running, subject);
      assert forall n :: n in names <==> n in init || n == names[|names| - 1];
    }
  }

  /** Exactly one change mail per name whose status changed, however often the
      name is listed, and none for the others. */
  lemma {:induction false} ProcessSweepMails(t: Tracker, names: seq<string>, running: seq<string>, subject: string)
    ensures var r := ProcessSweep(t, names, running, subject);
      forall n :: Count(r.effects, StatusMailFor(n))
                    == Count(t.effects, StatusMailFor(n))
                       + if n in names && Fires(t.records, n, ProcessStatusOf(n, running)) then 1 else 0
  {
    if names != [] {
      var init := names[..|names| - 1];
      var x := names[|names| - 1];
      var prev := ProcessSweep(t, init, running, subject);
      ProcessSweepMails(t, init, running, subject);
      ProcessSweepRecords(t, init, running, subject);
      assert forall n :: n in names <==> n in init || n == x;
      if Fires(prev.records, x, ProcessStatusOf(x, running)) {
        var mail := StatusMail(subject, Process, x, ProcessStatusOf(x, running), Previous(prev.records, x));
        forall n ensures Count(prev.effects + [mail], StatusMailFor(n))
                      == Count(prev.effects, StatusMailFor(n)) + if n == x then 1 else 0 {
          CountAppend(prev.effects, [mail], StatusMailFor(n));
          CountSingle(mail, StatusMailFor(n));
        }
      }
    }
  }

  /** The records after a service sweep that cannot crash. */
  lemma {:induction false} ServiceSweepRecords(t: Tracker, names: seq<string>, running: set<string>, cfg: Settings, ok: RestartProbe)
    requires !t.crashed && NoCrash(cfg)
    ensures var r := ServiceSweep(t, names, running, cfg, ok);
      && !r.crashed
      && (forall n :: n != "" && n in names ==> n in r.records && r.records[n] == ServiceStatusOf(n, running))
      && (forall n :: !(n != "" && n in names) ==>
            (n in r.records <==> n in t.records) && (n in t.records ==> r.records[n] == t.records[n]))
  {
    if names != [] {
      var init := names[..|names| - 1];
      ServiceSweepRecords(t, init, running, cfg, ok);
      StepAccounting(ServiceSweep(t, init, running, cfg, ok), names[|names| - 1], running, cfg, ok);
      assert forall n :: n in names <==> n in init || n == names[|names| - 1];
    }
  }

  /** A service sweep mails once per changed name, runs one restart episode
      (one report, at most max calls) per name that changed to Stopped while
      auto-restart is on, and nothing for any other name. */
  lemma {:induction false} ServiceSweepMails(t: Tracker, names: seq<string>, running: set<string>, cfg: Settings, ok: RestartProbe)
    requires !t.crashed && NoCrash(cfg)
    ensures var r := ServiceSweep(t, names, running, cfg, ok);
      && (forall n :: Count(r.effects, StatusMailFor(n))
            == Count(t.effects, StatusMailFor(n))
               + if n in names && Fires(t.records, n, ServiceStatusOf(n, running)) then 1 else 0)
      && (forall n :: Count(r.effects, RestartReportFor(n))
            == Count(t.effects, RestartReportFor(n))
               + if n in names && Fires(t.records, n, ServiceStatusOf(n, running))
                    && ServiceStatusOf(n, running) == Stopped && cfg.autoRestartService then 1 else 0)
      && (forall n :: Count(r.effects, RestartCallFor(n))
            <= Count(t.effects, RestartCallFor(n))
               + if n in names && Fires(t.records, n, ServiceStatusOf(n, running))
                    && ServiceStatusOf(n, running) == Stopped && cfg.autoRestartService
                 then cfg.maxRestartAttempts else 0)
  {
    if names != [] {
      var init := names[..|names| - 1];
      var x := names[|names| - 1];
      var prev := ServiceSweep(t, init, running, cfg, ok);
      ServiceSweepMails(t, init, running, cfg, ok);
      ServiceSweepRecords(t, init, running, cfg, ok);
      StepAccounting(prev, x, running, cfg, ok);
      assert forall n :: n in names <==> n in init || n == x;
    }
  }

  /** A sweep crashes only through a restart with fewer than one attempt allowed. */
  lemma {:induction false} ServiceSweepCrash(t: Tracker, names: seq<string>, running: set<string>, cfg: Settings, ok: RestartProbe)
    ensures ServiceSweep(t, names, running, cfg, ok).crashed ==>
      t.crashed || (cfg.autoRestartService && cfg.maxRestartAttempts < 1)
  {
    if names != [] {
      ServiceSweepCrash(t, names[..|names| - 1], running, cfg, ok);
    }
  }

  /** The step for a name whose status changed, case by case. */
  lemma ServiceStepChanged(t: Tracker, name: string, running: set<string>, cfg: Settings, ok: RestartProbe)
    requires !t.crashed && Fires(t.records, name, ServiceStatusOf(name, running))
    ensures var current := ServiceStatusOf(name, running);
      var t1 := Track(t, cfg.emailSubject, Service, name, current);
      ServiceStep(t, name, running, cfg, ok)
        == if current == Stopped && cfg.autoRestartService then
             (if cfg.maxRestartAttempts < 1 then t1.(crashed := true)
              else t1.(effects := t1.effects + RestartEpisode(ok, name, cfg.maxRestartAttempts, cfg.emailSubject).value))
           else t1
  {
  }

  /** A sweep over one more name is one more step. */
  lemma ServiceSweepSnoc(t: Tracker, names: seq<string>, k: int, running: set<string>, cfg: Settings, ok: RestartProbe)
    requires 0 <= k < |names|
    ensures ServiceSweep(t, names[..k + 1], running, cfg, ok)
         == ServiceStep(ServiceSweep(t, names[..k], running, cfg, ok), names[k], running, cfg, ok)
  {
    assert names[..k + 1][..k] == names[..k];
  }

  lemma ProcessSweepSnoc(t: Tracker, names: seq<string>, k: int, running: seq<string>, subject: string)
    requires 0 <= k < |names|
    ensures ProcessSweep(t, names[..k + 1], running, subject)
         == ProcessStep(ProcessSweep(t, names[..k], running, subject), names[k], running, subject)
  {
    assert names[..k + 1][..k] == names[..k];
  }

  /** Once a sweep has crashed, the names after that point are not checked. */
  lemma {:induction false} CrashedSweepStays(t: Tracker, names: seq<string>, i: nat, running: set<string>, cfg: Settings, ok: RestartProbe)
    requires i <= |names|
    requires ServiceSweep(t, names[..i], running, cfg, ok).crashed
    ensures ServiceSweep(t, names, running, cfg, ok) == ServiceSweep(t, names[..i], running, cfg, ok)
  {
    if i < |names| {
      var init := names[..|names| - 1];
      assert init[..i] == names[..i];
      CrashedSweepStays(t, init, i, running, cfg, ok);
    } else {
      assert names[..i] == names;
    }
  }
}
