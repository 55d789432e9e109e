/** The report scheduler: generate_reports_if_needed, generate_report and
    send_instant_report (app/gui.py:1040-1065). */
module Reports {
  import opened Types

  const DailyPeriod: int := 86400
  const WeeklyPeriod: int := 604800
  const MonthlyPeriod: int := 2592000

  /** Whether reports of a kind are switched on, and how long it waits. */
  predicate Enabled(cfg: Settings, k: ReportKind) {
    match k
    case Daily => cfg.dailyReport
    case Weekly => cfg.weeklyReport
    case Monthly => cfg.monthlyReport
    case Instant => false
  }

  function Period(k: ReportKind): int {
    match k
    case Daily => DailyPeriod
    case Weekly => WeeklyPeriod
    case Monthly => MonthlyPeriod
    case Instant => 0
  }

  /** Enabled and at least its period since the single LastReportTime. */
  predicate Due(cfg: Settings, k: ReportKind, now: int, last: int) {
    k != Instant && Enabled(cfg, k) && now - last >= Period(k)
  }

  /** The if/elif chain: nothing while reports are inactive, otherwise the first
      due kind in the order Daily, Weekly, Monthly. */
  function ReportDue(cfg: Settings, now: int, last: int): (r: Option<ReportKind>)
    ensures !cfg.reportActive ==> r == None
    ensures r.Some? ==> cfg.reportActive && Due(cfg, r.value, now, last)
    ensures r == None ==> !cfg.reportActive || forall k :: !Due(cfg, k, now, last)
    ensures r == Some(Weekly) ==> !Due(cfg, Daily, now, last)
    ensures r == Some(Monthly) ==> !Due(cfg, Daily, now, last) && !Due(cfg, Weekly, now, last)
  {
    if !cfg.reportActive then None
    else if cfg.dailyReport && now - last >= DailyPeriod then Some(Daily)
    else if cfg.weeklyReport && now - last >= WeeklyPeriod then Some(Weekly)
    else if cfg.monthlyReport && now - last >= MonthlyPeriod then Some(Monthly)
    else None
  }

  /** The mail of generate_report / send_instant_report. */
  function ReportMail(subject: string, k: ReportKind): Effect {
    Mail(subject, SystemReport(k, k.Label() + " System Report"))
  }

  /** The part of the application the scheduler reads and writes. */
  datatype Schedule = Schedule(lastReportTime: int, effects: seq<Effect>)

  /** generate_reports_if_needed: at most one report, and LastReportTime moves
      to now exactly when one is sent. */
  function Generate(s: Schedule, cfg: Settings, now: int): Schedule {
    match ReportDue(cfg, now, s.lastReportTime)
    case Some(k) => Schedule(now, s.effects + [ReportMail(cfg.emailSubject, k)])
    case None => s
  }

  /** Because the periods grow, an enabled daily report shadows the others:
      with daily reports on, no weekly or monthly report is ever chosen, and
      with weekly on, no monthly one. */
  lemma DailyShadowsLongerPeriods(cfg: Settings, now: int, last: int)
    ensures cfg.dailyReport ==> ReportDue(cfg, now, last) in {None, Some(Daily)}
    ensures cfg.weeklyReport ==> ReportDue(cfg, now, last) != Some(Monthly)
  {
  }

  /** A call sends at most one report, and changes nothing when none is due. */
  lemma {:induction false} GenerateAtMostOne(s: Schedule, cfg: Settings, now: int)
    ensures var r := Generate(s, cfg, now);
      && |r.effects| <= |s.effects| + 1
      && r.effects[..|s.effects|] == s.effects
      && (|r.effects| == |s.effects| + 1 <==> r.lastReportTime == now && ReportDue(cfg, now, s.lastReportTime).Some?)
      && (ReportDue(cfg, now, s.lastReportTime).None? ==> r == s)
  {
  }

  /** LastReportTime 90000 seconds ago with daily and weekly on: one daily report. */
  lemma DailyWinsOverWeekly(cfg: Settings, now: int)
    requires cfg.reportActive && cfg.dailyReport && cfg.weeklyReport
    ensures ReportDue(cfg, now, now - 90000) == Some(Daily)
  {
  }
}
