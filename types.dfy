/** Values shared by every part of the monitoring core: the status labels the
    tracker stores, the alerts the application mails, the log of outward
    effects (mails, restart calls, sleeps) and the settings snapshot. */
module Types {

  datatype Option<T> = None | Some(value: T)

  /** The three statuses the checks ever write into last_service_status and
      last_process_status. */
  datatype Status = Running | Stopped | NotRunning {
    function Label(): string {
      match this
      case Running => "Running"
      case Stopped => "Stopped"
      case NotRunning => "Not Running"
    }
  }

  datatype TargetKind = Service | Process {
    function Label(): string {
      match this
      case Service => "Service"
      case Process => "Process"
    }
  }

  datatype ReportKind = Daily | Weekly | Monthly | Instant {
    function Label(): string {
      match this
      case Daily => "Daily"
      case Weekly => "Weekly"
      case Monthly => "Monthly"
      case Instant => "Instant"
    }
  }

  /** What one mail is about.  `requested` is the subject the caller passes to
      send_email; the subject actually used is the configured one (see Mail). */
  datatype Alert =
    | StatusChange(kind: TargetKind, name: string, status: Status, previous: string, requested: string)
    | RestartReport(service: string, success: bool, attempt: int, requested: string)
    | HardwareOverload(name: string, usage: int, threshold: int, requested: string)
    | SystemReport(report: ReportKind, requested: string)

  /** One outward effect of the application, in the order it happens.
      Mail is one call of send_email: its subject is the configured subject
      (send_email overwrites the one it is given) and a transport failure is
      swallowed there, so the attempt is all a caller can observe. */
  datatype Effect =
    | RefreshScheduled
    | Mail(subject: string, alert: Alert)
    | RestartCall(service: string, attempt: int)
    | Sleep(seconds: int)

  /** The settings the core reads through its Tk variables. */
  datatype Settings = Settings(
    cpuThreshold: int,
    ramThreshold: int,
    maxRestartAttempts: int,
    autoRestartService: bool,
    emailFrequency: int,
    sendRepeatEmail: bool,
    dailyReport: bool,
    weeklyReport: bool,
    monthlyReport: bool,
    reportActive: bool,
    emailSubject: string)

  /** A disk partition as the probe reports it, with its usage already read. */
  datatype Partition = Partition(device: string, mountpoint: string, fstype: string, usedPercent: int)

  /** One call of handle_hardware_overload(name, current_usage, threshold). */
  datatype Overload = Overload(name: string, usage: int, threshold: int)

  /** What the threshold dialog can return: askinteger is given minvalue=1 and
      maxvalue=100 and gives back nothing outside that range. */
  type Percent = x: int | 1 <= x <= 100 witness 1

  /** send_email(…): the mail goes out under the configured subject. */
  function SendEmail(cfg: Settings, alert: Alert): Effect {
    Mail(cfg.emailSubject, alert)
  }

  /** Selects the effects that are about one target, for counting. */
  datatype Pick =
    | StatusMailFor(name: string)
    | RestartReportFor(name: string)
    | RestartCallFor(name: string)
    | OverloadMailFor(name: string)

  predicate Picks(e: Effect, p: Pick) {
    match p
    case StatusMailFor(n) => e.Mail? && e.alert.StatusChange? && e.alert.name == n
    case RestartReportFor(n) => e.Mail? && e.alert.RestartReport? && e.alert.service == n
    case RestartCallFor(n) => e.RestartCall? && e.service == n
    case OverloadMailFor(n) => e.Mail? && e.alert.HardwareOverload? && e.alert.name == n
  }

  /** The number of effects in `effs` that `p` selects. */
  function Count(effs: seq<Effect>, p: Pick): nat {
    if effs == [] then 0 else (if Picks(effs[0], p) then 1 else 0) + Count(effs[1..], p)
  }

  lemma {:induction false} CountAppend(a: seq<Effect>, b: seq<Effect>, p: Pick)
    ensures Count(a + b, p) == Count(a, p) + Count(b, p)
  {
    if a != [] {
      assert (a + b)[1..] == a[1..] + b;
      CountAppend(a[1..], b, p);
    } else {
      assert a + b == b;
    }
  }

  lemma CountSingle(e: Effect, p: Pick)
    ensures Count([e], p) == if Picks(e, p) then 1 else 0
  {
    assert [e][1..] == [];
  }
}
