/** The overload rate gate of handle_hardware_overload (app/gui.py:825-830):
    the last_email_sent map decides whether an overload mail goes out. */
module Alerts {
  import opened Types

  /** The part of the application the gate reads and writes. */
  datatype Gate = Gate(lastSent: map<string, int>, effects: seq<Effect>)

  /** The two nested tests of app/gui.py:825-827.  Together they send when the
      key was never mailed, or when it was mailed more than `frequency` minutes
      ago (strictly) and repeat mails are on. */
  function ShouldMail(lastSent: map<string, int>, name: string, now: int, frequency: int, repeat: bool): (send: bool)
    ensures send <==> name !in lastSent || (now - lastSent[name] > frequency * 60 && repeat)
  {
    if name !in lastSent || now - lastSent[name] > frequency * 60 then
      repeat || name !in lastSent
    else false
  }

  function OverloadMail(subject: string, o: Overload): Effect {
    Mail(subject, HardwareOverload(o.name, o.usage, o.threshold, "Hardware Overload: " + o.name))
  }

  /** One call of handle_hardware_overload: mail and stamp, or nothing. */
  function Overloaded(g: Gate, o: Overload, now: int, cfg: Settings): Gate {
    if ShouldMail(g.lastSent, o.name, now, cfg.emailFrequency, cfg.sendRepeatEmail) then
      Gate(g.lastSent[o.name := now], g.effects + [OverloadMail(cfg.emailSubject, o)])
    else g
  }

  /** The overloads of one check, handled in order at the same time `now`. */
  function Dispatch(g: Gate, os: seq<Overload>, now: int, cfg: Settings): Gate
    decreases |os|
  {
    if os == [] then g
    else Overloaded(Dispatch(g, os[..|os| - 1], now, cfg), os[|os| - 1], now, cfg)
  }

  /** Many checks one after another, each with its own time. */
  function DispatchRun(g: Gate, checks: seq<(seq<Overload>, int)>, cfg: Settings): Gate
    decreases |checks|
  {
    if checks == [] then g
    else
      var last := checks[|checks| - 1];
      Dispatch(DispatchRun(g, checks[..|checks| - 1], cfg), last.0, last.1, cfg)
  }

  /** Handling two lists of overloads one after the other is handling their
      concatenation. */
  lemma {:induction false} DispatchAppend(g: Gate, a: seq<Overload>, b: seq<Overload>, now: int, cfg: Settings)
    decreases |b|
    ensures Dispatch(g, a + b, now, cfg) == Dispatch(Dispatch(g, a, now, cfg), b, now, cfg)
  {
    if b == [] {
      assert a + b == a;
    } else {
      var init := b[..|b| - 1];
      DispatchAppend(g, a, init, now, cfg);
      assert (a + b)[..|a + b| - 1] == a + init;
    }
  }

  lemma DispatchOne(g: Gate, o: Overload, now: int, cfg: Settings)
    ensures Dispatch(g, [o], now, cfg) == Overloaded(g, o, now, cfg)
  {
    assert [o][..0] == [];
  }

  /** The entry for a key is written exactly when a mail for it is sent, and
      is then the time of sending; every other entry is left alone. */
  lemma StampOnlyWhenMailed(g: Gate, o: Overload, now: int, cfg: Settings)
    ensures var r := Overloaded(g, o, now, cfg);
      forall k :: Count(r.effects, OverloadMailFor(k))
                    == Count(g.effects, OverloadMailFor(k))
                       + if k == o.name && ShouldMail(g.lastSent, o.name, now, cfg.emailFrequency, cfg.sendRepeatEmail) then 1 else 0
    ensures var r := Overloaded(g, o, now, cfg);
      r.lastSent == if ShouldMail(g.lastSent, o.name, now, cfg.emailFrequency, cfg.sendRepeatEmail)
                    then g.lastSent[o.name := now] else g.lastSent
  {
    var mail := OverloadMail(cfg.emailSubject, o);
    forall k ensures Count(g.effects + [mail], OverloadMailFor(k)) == Count(g.effects, OverloadMailFor(k)) + if k == o.name then 1 else 0 {
      CountAppend(g.effects, [mail], OverloadMailFor(k));
      CountSingle(mail, OverloadMailFor(k));
    }
  }

  /** With repeat mails off, a key that has an entry is never mailed again,
      whatever time has passed. */
  lemma RepeatOffNeverResends(lastSent: map<string, int>, name: string, now: int, frequency: int)
    requires name in lastSent
    ensures !ShouldMail(lastSent, name, now, frequency, false)
  {
  }

  /** The invariant behind "at most once": the key has been mailed no more
      often than its entry says (once if present, never if absent). */
  predicate MailedAtMostOnce(g: Gate, k: string) {
    Count(g.effects, OverloadMailFor(k)) <= if k in g.lastSent then 1 else 0
  }

  /** One check keeps the invariant when repeat mails are off. */
  lemma {:induction false} DispatchKeepsOnce(g: Gate, os: seq<Overload>, now: int, cfg: Settings, k: string)
    requires !cfg.sendRepeatEmail && MailedAtMostOnce(g, k)
    ensures MailedAtMostOnce(Dispatch(g, os, now, cfg), k)
  {
    if os != [] {
      var prev := Dispatch(g, os[..|os| - 1], now, cfg);
      DispatchKeepsOnce(g, os[..|os| - 1], now, cfg, k);
      StampOnlyWhenMailed(prev, os[|os| - 1], now, cfg);
    }
  }

  /** With repeat mails off, over any run of checks started from a fresh
      application, each key is mailed at most once, ever. */
  lemma {:induction false} RepeatOffMailsAtMostOnce(g: Gate, checks: seq<(seq<Overload>, int)>, cfg: Settings, k: string)
    requires !cfg.sendRepeatEmail && MailedAtMostOnce(g, k)
    ensures MailedAtMostOnce(DispatchRun(g, checks, cfg), k)
    ensures g == Gate(map[], []) ==> Count(DispatchRun(g, checks, cfg).effects, OverloadMailFor(k)) <= 1
  {
    if checks != [] {
      var last := checks[|checks| - 1];
      RepeatOffMailsAtMostOnce(g, checks[..|checks| - 1], cfg, k);
      DispatchKeepsOnce(DispatchRun(g, checks[..|checks| - 1], cfg), last.0, last.1, cfg, k);
    }
  }

  /** A CPU reading of 92 against a threshold of 80, with nothing sent before:
      the overload is mailed at once and stamped with the current time. */
  lemma FirstOverloadDeliveredAtOnce(now: int, cfg: Settings)
    ensures Overloaded(Gate(map[], []), Overload("CPU Usage", 92, 80), now, cfg)
         == Gate(map["CPU Usage" := now], [OverloadMail(cfg.emailSubject, Overload("CPU Usage", 92, 80))])
  {
  }
}
