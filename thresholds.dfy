/** The threshold evaluator: check_cpu_ram_usage and check_disk_space
    (app/gui.py:738-753, app/monitoring.py:39-53) as the list of overload calls
    they make, and the value rule of set_disk_thresholds (app/gui.py:489-495). */
module Thresholds {
  import opened Types

  /** The calls check_cpu_ram_usage makes: CPU first, then RAM, each only when
      the reading is strictly above its threshold. */
  function CpuRamOverloads(cpu: int, ram: int, cfg: Settings): (r: seq<Overload>)
    ensures |r| <= 2
    ensures Overload("CPU Usage", cpu, cfg.cpuThreshold) in r <==> cpu > cfg.cpuThreshold
    ensures Overload("RAM Usage", ram, cfg.ramThreshold) in r <==> ram > cfg.ramThreshold
    ensures forall o :: o in r ==> o == Overload("CPU Usage", cpu, cfg.cpuThreshold) || o == Overload("RAM Usage", ram, cfg.ramThreshold)
    ensures |r| == 2 ==> r[0].name == "CPU Usage" && r[1].name == "RAM Usage"
  {
    (if cpu > cfg.cpuThreshold then [Overload("CPU Usage", cpu, cfg.cpuThreshold)] else [])
    + (if ram > cfg.ramThreshold then [Overload("RAM Usage", ram, cfg.ramThreshold)] else [])
  }

  /** The overload call for one partition whose device has a threshold. */
  function DiskOverload(p: Partition, thresholds: map<string, int>): Overload
    requires p.device in thresholds
  {
    Overload("Disk Space " + p.device, p.usedPercent, thresholds[p.device])
  }

  /** The partition is examined (its device has a threshold) and is over it. */
  predicate DiskOver(p: Partition, thresholds: map<string, int>) {
    p.device in thresholds && p.usedPercent > thresholds[p.device]
  }

  /** The calls check_disk_space makes, in the order the partitions come. */
  function DiskOverloads(parts: seq<Partition>, thresholds: map<string, int>): seq<Overload>
    decreases |parts|
  {
    if parts == [] then []
    else
      var p := parts[|parts| - 1];
      DiskOverloads(parts[..|parts| - 1], thresholds)
        + (if DiskOver(p, thresholds) then [DiskOverload(p, thresholds)] else [])
  }

  /** Disks fire only for devices present in the threshold map and strictly
      over their threshold, and every such partition fires. */
  lemma {:induction false} DiskOverloadsExact(parts: seq<Partition>, thresholds: map<string, int>)
    ensures var r := DiskOverloads(parts, thresholds);
      && |r| <= |parts|
      && (forall o :: o in r ==> exists p :: p in parts && DiskOver(p, thresholds) && o == DiskOverload(p, thresholds))
      && (forall p :: p in parts && DiskOver(p, thresholds) ==> DiskOverload(p, thresholds) in r)
  {
    if parts != [] {
      var init := parts[..|parts| - 1];
      DiskOverloadsExact(init, thresholds);
      assert forall p :: p in parts <==> p in init || p == parts[|parts| - 1];
    }
  }

  /** One partition makes one call when it is over its threshold and none
      otherwise. */
  lemma DiskOverloadsSingle(p: Partition, thresholds: map<string, int>)
    ensures DiskOverloads([p], thresholds) == if DiskOver(p, thresholds) then [DiskOverload(p, thresholds)] else []
  {
    assert [p][..0] == [];
  }

  /** The calls for partitions read one after another are the calls for the
      first ones followed by those for the rest: one call per partition that
      is over, in the order the partitions come. */
  lemma {:induction false} DiskOverloadsAppend(a: seq<Partition>, b: seq<Partition>, thresholds: map<string, int>)
    decreases |b|
    ensures DiskOverloads(a + b, thresholds) == DiskOverloads(a, thresholds) + DiskOverloads(b, thresholds)
  {
    if b == [] {
      assert a + b == a;
    } else {
      var init := b[..|b| - 1];
      DiskOverloadsAppend(a, init, thresholds);
      assert (a + b)[..|a + b| - 1] == a + init;
      assert (a + b)[|a + b| - 1] == b[|b| - 1];
    }
  }

  /** The threshold comparison is strict: a reading equal to the threshold never
      fires, one above it always does. */
  lemma StrictThreshold(t: int, ram: int, cfg: Settings)
    requires cfg.cpuThreshold == t
    ensures Overload("CPU Usage", t, t) !in CpuRamOverloads(t, ram, cfg)
    ensures Overload("CPU Usage", t + 1, t) in CpuRamOverloads(t + 1, ram, cfg)
  {
  }

  /** CPU at 90 and RAM at 85 against thresholds of 80: two calls, CPU first. */
  lemma BothOverThreshold(cfg: Settings)
    requires cfg.cpuThreshold == 80 && cfg.ramThreshold == 80
    ensures CpuRamOverloads(90, 85, cfg) == [Overload("CPU Usage", 90, 80), Overload("RAM Usage", 85, 80)]
  {
  }

  // ---------------------------------------------------------------------------
  // set_disk_thresholds

  /** Every stored disk threshold is a percentage in 1..100. */
  predicate ThresholdsInRange(thresholds: map<string, int>) {
    forall d :: d in thresholds ==> 1 <= thresholds[d] <= 100
  }

  /** The dialog is shown for each partition with a filesystem; an answer (the
      user did not cancel) is stored under the partition's device. */
  function ThresholdUpdates(thresholds: map<string, int>, parts: seq<Partition>, answers: map<string, Percent>): map<string, int>
    decreases |parts|
  {
    if parts == [] then thresholds
    else
      var p := parts[|parts| - 1];
      var before := ThresholdUpdates(thresholds, parts[..|parts| - 1], answers);
      if p.fstype != "" && p.device in answers then before[p.device := answers[p.device]] else before
  }

  /** Thresholds stay in 1..100; a new key is only ever a device of a partition
      with a filesystem; every answered filesystem partition gets its answer. */
  lemma {:induction false} ThresholdUpdatesRule(thresholds: map<string, int>, parts: seq<Partition>, answers: map<string, Percent>)
    ensures var r := ThresholdUpdates(thresholds, parts, answers);
      && (ThresholdsInRange(thresholds) ==> ThresholdsInRange(r))
      && (forall d :: d in r && d !in thresholds ==> exists p :: p in parts && p.fstype != "" && p.device == d)
      && (forall d :: d in thresholds && d !in answers ==> d in r && r[d] == thresholds[d])
      && (forall p :: p in parts && p.fstype != "" && p.device in answers ==> p.device in r && r[p.device] == answers[p.device])
  {
    if parts != [] {
      var init := parts[..|parts| - 1];
      ThresholdUpdatesRule(thresholds, init, answers);
      assert forall p :: p in parts <==> p in init || p == parts[|parts| - 1];
    }
  }
}
