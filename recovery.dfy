/** The recovery controller: attempt_service_restart's bounded retry loop
    (app/gui.py:709-736), stated as the sequence of effects one episode has. */
module Recovery {
  import opened Types

  /** time.sleep(5) after every failed restart call. */
  const RestartBackoff: int := 5

  /** The service controller's answer: does RestartService(name) succeed on
      the given attempt of the current episode? */
  type RestartProbe = (string, int) -> bool

  /** The first attempt in from..max on which the restart succeeds. */
  function FirstSuccess(ok: RestartProbe, name: string, from: int, max: int): (k: Option<int>)
    decreases max - from + 1
    ensures k.Some? ==> from <= k.value <= max && ok(name, k.value)
    ensures k.Some? ==> forall j :: from <= j < k.value ==> !ok(name, j)
    ensures k.None? ==> forall j :: from <= j <= max ==> !ok(name, j)
  {
    if from > max then None
    else if ok(name, from) then Some(from)
    else FirstSuccess(ok, name, from + 1, max)
  }

  /** The effects of attempts 1..n when each of them fails: the call, then the
      back-off sleep. */
  function FailedTries(name: string, n: nat): seq<Effect> {
    if n == 0 then [] else FailedTries(name, n - 1) + [RestartCall(name, n), Sleep(RestartBackoff)]
  }

  /** send_restart_report(service_name, success, attempt). */
  function RestartReportMail(subject: string, name: string, success: bool, attempt: int): Effect {
    Mail(subject, RestartReport(name, success, attempt,
      "Service Restart " + (if success then "Success" else "Failure") + ": " + name))
  }

  /** The effects of one restart episode, or None when `attempt` is never bound
      (max < 1 leaves `range(1, max + 1)` empty and the report call raises). */
  function RestartEpisode(ok: RestartProbe, name: string, max: int, subject: string): (r: Option<seq<Effect>>)
    ensures r.None? <==> max < 1
  {
    if max < 1 then None
    else match FirstSuccess(ok, name, 1, max)
      case Some(k) => Some(FailedTries(name, k - 1) + [RestartCall(name, k), RestartReportMail(subject, name, true, k)])
      case None => Some(FailedTries(name, max) + [RestartReportMail(subject, name, false, max)])
  }

  /** Attempts are numbered 1, 2, …, n in order, each followed by the back-off. */
  lemma {:induction false} FailedTriesShape(name: string, n: nat)
    ensures |FailedTries(name, n)| == 2 * n
    ensures forall j :: 0 <= j < n ==> FailedTries(name, n)[2 * j] == RestartCall(name, j + 1)
    ensures forall j :: 0 <= j < n ==> FailedTries(name, n)[2 * j + 1] == Sleep(RestartBackoff)
  {
    if n > 0 {
      FailedTriesShape(name, n - 1);
    }
  }

  /** Failed tries hold n restart calls for `name` and nothing else that is counted. */
  lemma {:induction false} FailedTriesCount(name: string, n: nat, p: Pick)
    ensures Count(FailedTries(name, n), p) == if p == RestartCallFor(name) then n else 0
  {
    if n > 0 {
      CountAppend(FailedTries(name, n - 1), [RestartCall(name, n), Sleep(RestartBackoff)], p);
      FailedTriesCount(name, n - 1, p);
      assert [RestartCall(name, n), Sleep(RestartBackoff)][1..] == [Sleep(RestartBackoff)];
      CountSingle(Sleep(RestartBackoff), p);
    }
  }

  /** One episode: at most max restart calls, numbered from 1; it stops at the
      first success; exactly one report follows, as the last effect, carrying
      (true, k) for a success on try k and (false, max) when every try failed. */
  lemma EpisodeAccounting(ok: RestartProbe, name: string, max: int, subject: string)
    requires max >= 1
    ensures var ep := RestartEpisode(ok, name, max, subject).value;
      && |ep| >= 2 && ep[|ep| - 1].Mail? && ep[|ep| - 1].alert.RestartReport?
      && ep[|ep| - 1].subject == subject
      && ep[|ep| - 1].alert.service == name
      && 1 <= ep[|ep| - 1].alert.attempt <= max
      && Count(ep, RestartCallFor(name)) == ep[|ep| - 1].alert.attempt
      && (ep[|ep| - 1].alert.success <==> ok(name, ep[|ep| - 1].alert.attempt))
      && (!ep[|ep| - 1].alert.success ==> ep[|ep| - 1].alert.attempt == max)
      && (forall j :: 1 <= j < ep[|ep| - 1].alert.attempt ==> !ok(name, j))
      && (forall p :: p != RestartCallFor(name) ==> Count(ep, p) == if p == RestartReportFor(name) then 1 else 0)
  {
    var ep := RestartEpisode(ok, name, max, subject).value;
    match FirstSuccess(ok, name, 1, max)
    case Some(k) =>
      var tail := [RestartCall(name, k), RestartReportMail(subject, name, true, k)];
      assert ep == FailedTries(name, k - 1) + tail;
      forall p: Pick
        ensures Count(ep, p) == Count(FailedTries(name, k - 1), p) + Count(tail, p)
        ensures Count(tail, p) == (if p == RestartCallFor(name) then 1 else 0) + (if p == RestartReportFor(name) then 1 else 0)
      {
        CountAppend(FailedTries(name, k - 1), tail, p);
        assert tail[1..] == [RestartReportMail(subject, name, true, k)];
        CountSingle(RestartReportMail(subject, name, true, k), p);
      }
      var failed: nat := k - 1;
      forall p: Pick ensures Count(FailedTries(name, failed), p) == if p == RestartCallFor(name) then failed else 0 {
        FailedTriesCount(name, failed, p);
      }
    case None =>
      var tail := [RestartReportMail(subject, name, false, max)];
      assert ep == FailedTries(name, max) + tail;
      forall p: Pick
        ensures Count(ep, p) == Count(FailedTries(name, max), p) + (if p == RestartReportFor(name) then 1 else 0)
      {
        CountAppend(FailedTries(name, max), tail, p);
        CountSingle(RestartReportMail(subject, name, false, max), p);
      }
      forall p: Pick ensures Count(FailedTries(name, max), p) == if p == RestartCallFor(name) then max else 0 {
        FailedTriesCount(name, max, p);
      }
  }

  /** With a controller that fails every time and three attempts allowed, the
      episode makes exactly three calls and reports (false, 3). */
  lemma AlwaysFailingThreeAttempts(ok: RestartProbe, name: string, subject: string)
    requires forall a :: !ok(name, a)
    ensures var ep := RestartEpisode(ok, name, 3, subject).value;
      Count(ep, RestartCallFor(name)) == 3 && ep[|ep| - 1] == RestartReportMail(subject, name, false, 3)
  {
    EpisodeAccounting(ok, name, 3, subject);
  }

  /** One attempt allowed, and the restart succeeds on it: one call, then the
      report of success on attempt 1. */
  lemma SucceedsOnFirstAttempt(ok: RestartProbe, name: string, subject: string)
    requires ok(name, 1)
    ensures RestartEpisode(ok, name, 1, subject)
         == Some([RestartCall(name, 1), RestartReportMail(subject, name, true, 1)])
  {
    assert FirstSuccess(ok, name, 1, 1) == Some(1);
    assert FailedTries(name, 0) == [];
    assert [] + [RestartCall(name, 1), RestartReportMail(subject, name, true, 1)]
        == [RestartCall(name, 1), RestartReportMail(subject, name, true, 1)];
  }
}
