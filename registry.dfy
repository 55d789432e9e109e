/** The target registry: which services and processes are monitored
    (add_to_monitor_list, remove_from_monitor_list, app/gui.py:585-621), the
    search filter over scanned names (update_filtered_items, :573-583) and the
    service status labels (get_service_status, is_service_running, :665-672,
    :832-841). */
module TargetRegistry {
  import opened Types

  // ---------------------------------------------------------------------------
  // Service probes

  /** What psutil.win_service_get reports: a name in the map is a known service
      with its "is running" flag; any other name makes the lookup raise. */
  type ServiceProbe = map<string, bool>

  /** is_service_running: false for an empty name; otherwise it agrees with
      get_service_status's label, so "Stopped" and "Not Found" both read as
      not running. */
  function IsServiceRunning(name: string, probe: ServiceProbe): (running: bool)
    ensures name == "" ==> !running
    ensures name != "" ==> (running <==> GetServiceStatus(name, probe) == "Running")
  {
    if name == "" then false
    else if name in probe && probe[name] then true
    else false
  }

  /** The services the probe reports running, as one snapshot for a sweep. */
  function RunningServices(probe: ServiceProbe): (running: set<string>)
    ensures forall n :: n != "" ==> (n in running <==> IsServiceRunning(n, probe))
  {
    set n | n in probe && probe[n] && n != ""
  }

  /** get_service_status's label. */
  function GetServiceStatus(name: string, probe: ServiceProbe): (shown: string)
    ensures shown in {"Monitored", "Running", "Stopped", "Not Found"}
    ensures shown == "Monitored" <==> name == ""
    ensures shown == "Not Found" <==> name != "" && name !in probe
    ensures name != "" && name in probe ==> (shown == "Running" <==> probe[name])
  {
    if name == "" then "Monitored"
    else if name !in probe then "Not Found"
    else if probe[name] then "Running" else "Stopped"
  }

  // ---------------------------------------------------------------------------
  // The search filter

  /** str.lower() on ASCII capitals. */
  function LowerChar(c: char): char {
    if 'A' <= c <= 'Z' then (c as int + 32) as char else c
  }

  function Lower(s: string): (r: string)
    ensures |r| == |s| && forall i :: 0 <= i < |s| ==> r[i] == LowerChar(s[i])
  {
    if s == [] then [] else [LowerChar(s[0])] + Lower(s[1..])
  }

  /** `needle` occurs in `hay` at position i. */
  predicate OccursAt(hay: string, needle: string, i: int) {
    0 <= i && i + |needle| <= |hay| && hay[i..i + |needle|] == needle
  }

  /** Python's `needle in hay` for strings. */
  function Contains(hay: string, needle: string): bool
    decreases |hay|
  {
    if |needle| <= |hay| && hay[..|needle|] == needle then true
    else if hay == [] then false
    else Contains(hay[1..], needle)
  }

  lemma {:induction false} ContainsIffOccurs(hay: string, needle: string)
    ensures Contains(hay, needle) <==> exists i :: OccursAt(hay, needle, i)
  {
    if |needle| <= |hay| && hay[..|needle|] == needle {
      assert OccursAt(hay, needle, 0);
    } else if hay == [] {
    } else {
      ContainsIffOccurs(hay[1..], needle);
      if exists i :: OccursAt(hay, needle, i) {
        var i :| OccursAt(hay, needle, i);
        assert i != 0;
        assert hay[1..][i - 1..i - 1 + |needle|] == hay[i..i + |needle|];
        assert OccursAt(hay[1..], needle, i - 1);
      }
      if exists i :: OccursAt(hay[1..], needle, i) {
        var i :| OccursAt(hay[1..], needle, i);
        assert hay[1..][i..i + |needle|] == hay[i + 1..i + 1 + |needle|];
        assert OccursAt(hay, needle, i + 1);
      }
    }
  }

  /** `search_text.lower() in item.lower()`. */
  predicate Matches(search: string, item: string) {
    Contains(Lower(item), Lower(search))
  }

  /** The list comprehension of update_filtered_items. */
  function Filter(items: seq<string>, search: string): seq<string> {
    if items == [] then []
    else (if Matches(search, items[0]) then [items[0]] else []) + Filter(items[1..], search)
  }

  /** The filter keeps exactly the items that contain the search text, ignoring
      case, as often as they occur, and never invents items. */
  lemma {:induction false} FilterKeepsMatches(items: seq<string>, search: string)
    ensures var r := Filter(items, search);
      && |r| <= |items|
      && (forall x :: x in r <==> x in items && Matches(search, x))
      && (forall x :: Matches(search, x) ==> multiset(r)[x] == multiset(items)[x])
  {
    if items != [] {
      FilterKeepsMatches(items[1..], search);
      assert items == [items[0]] + items[1..];
    }
  }

  /** Filtering a concatenation filters each part, so the kept items stay in
      the order of the scan. */
  lemma {:induction false} FilterAppend(a: seq<string>, b: seq<string>, search: string)
    ensures Filter(a + b, search) == Filter(a, search) + Filter(b, search)
  {
    if a == [] {
      assert a + b == b;
    } else {
      assert (a + b)[0] == a[0];
      assert (a + b)[1..] == a[1..] + b;
      FilterAppend(a[1..], b, search);
    }
  }

  /** An empty search text keeps every scanned name (scan_services and
      scan_processes refill the list this way). */
  lemma {:induction false} EmptySearchKeepsAll(items: seq<string>)
    ensures Filter(items, "") == items
  {
    if items != [] {
      assert Lower("") == "";
      assert Lower(items[0])[..0] == "";
      EmptySearchKeepsAll(items[1..]);
    }
  }

  /** Searches that differ only in ASCII case select the same items. */
  lemma {:induction false} FilterIgnoresCase(items: seq<string>, s1: string, s2: string)
    requires Lower(s1) == Lower(s2)
    ensures Filter(items, s1) == Filter(items, s2)
  {
    if items != [] {
      FilterIgnoresCase(items[1..], s1, s2);
    }
  }

  // ---------------------------------------------------------------------------
  // Adding and removing targets

  /** One kind's registry: the monitored list box's rows (which the duplicate
      check consults), the selected_* list the checks iterate over, and the
      last_*_status records. */
  datatype Registry = Registry(listed: seq<string>, selected: seq<string>, records: map<string, Status>)

  /** The names at the chosen rows of the scanned list box. */
  function Picked(rows: seq<int>, scanned: seq<string>): seq<string>
    requires forall k :: 0 <= k < |rows| ==> 0 <= rows[k] < |scanned|
  {
    seq(|rows|, k requires 0 <= k < |rows| => scanned[rows[k]])
  }

  /** One iteration of add_to_monitor_list's loop: a non-empty name not yet in
      the list box is listed, appended to selected_*, and seeded as Running. */
  function AddName(r: Registry, name: string): Registry {
    if name != "" && name !in r.listed then Registry(r.listed + [name], r.selected + [name], r.records[name := Running])
    else r
  }

  function AddAll(r: Registry, names: seq<string>): Registry
    decreases |names|
  {
    if names == [] then r else AddName(AddAll(r, names[..|names| - 1]), names[|names| - 1])
  }

  predicate NoDuplicates(s: seq<string>) {
    forall i, j :: 0 <= i < j < |s| ==> s[i] != s[j]
  }

  /** Adding lists every non-empty picked name, and only those; what it lists
      it appends, in the same order, to selected_*, and seeds as Running; a
      name already listed is skipped, so a duplicate-free list box stays so;
      the records of other names do not change. */
  lemma {:induction false} AddAllEffect(r: Registry, names: seq<string>)
    ensures var a := AddAll(r, names);
      && |a.listed| >= |r.listed| && a.listed[..|r.listed|] == r.listed
      && |a.selected| >= |r.selected| && a.selected[..|r.selected|] == r.selected
      && a.listed[|r.listed|..] == a.selected[|r.selected|..]
      && (forall n :: n in a.listed <==> n in r.listed || (n != "" && n in names))
      && (forall n :: n in a.listed[|r.listed|..] ==> n !in r.listed && n in a.records && a.records[n] == Running)
      && (forall n :: n !in a.listed[|r.listed|..] ==>
            (n in a.records <==> n in r.records) && (n in r.records ==> a.records[n] == r.records[n]))
      && (NoDuplicates(r.listed) ==> NoDuplicates(a.listed))
  {
    if names != [] {
      var init := names[..|names| - 1];
      var x := names[|names| - 1];
      var b := AddAll(r, init);
      AddAllEffect(r, init);
      assert forall n :: n in names <==> n in init || n == x;
      if x != "" && x !in b.listed {
        assert b.listed + [x] == AddAll(r, names).listed;
        assert (b.listed + [x])[|r.listed|..] == b.listed[|r.listed|..] + [x];
        assert (b.selected + [x])[|r.selected|..] == b.selected[|r.selected|..] + [x];
        assert (b.listed + [x])[..|r.listed|] == b.listed[..|r.listed|];
        assert (b.selected + [x])[..|r.selected|] == b.selected[..|r.selected|];
        forall n | n in (b.listed + [x])[|r.listed|..]
          ensures n == x || n in b.listed[|r.listed|..]
        {
        }
        assert forall n :: n in b.listed[|r.listed|..] ==> n in b.listed;
      }
    }
  }

  /** The position of the first occurrence of x. */
  function IndexOf(s: seq<string>, x: string): (k: nat)
    requires x in s
    ensures k < |s| && s[k] == x && forall j :: 0 <= j < k ==> s[j] != x
  {
    if s[0] == x then 0 else 1 + IndexOf(s[1..], x)
  }

  /** Python's list.remove(x): drop the first occurrence. */
  function RemoveFirst(s: seq<string>, x: string): (r: seq<string>)
    requires x in s
    ensures |r| == |s| - 1
  {
    var k := IndexOf(s, x);
    s[..k] + s[k + 1..]
  }

  /** list.remove takes away one x and nothing else, and keeps the order of
      the rest. */
  lemma RemoveFirstMultiset(s: seq<string>, x: string)
    requires x in s
    ensures multiset(RemoveFirst(s, x)) == multiset(s) - multiset{x}
    ensures var k := IndexOf(s, x);
      RemoveFirst(s, x)[..k] == s[..k] && RemoveFirst(s, x)[k..] == s[k + 1..]
  {
    var k := IndexOf(s, x);
    var r := RemoveFirst(s, x);
    assert r == s[..k] + s[k + 1..];
    assert s == s[..k] + ([x] + s[k + 1..]);
    assert multiset(s) == multiset(s[..k]) + multiset([x] + s[k + 1..]);
    assert multiset([x] + s[k + 1..]) == multiset{x} + multiset(s[k + 1..]);
    assert multiset(r) == multiset(s[..k]) + multiset(s[k + 1..]);
    assert r[..k] == s[..k];
    assert r[k..] == s[k + 1..];
  }

  /** What one removal did: the new registry, and whether it completed (false:
      `del last_*_status[name]` raised KeyError because the name had no
      record, after the row and the list entry were already gone). */
  datatype Removal = Removal(reg: Registry, ok: bool)

  /** One iteration of remove_from_monitor_list's loop, for the row i. */
  function RemoveRow(r: Registry, i: int): Removal
    requires 0 <= i < |r.listed|
  {
    var name := r.listed[i];
    var listed := r.listed[..i] + r.listed[i + 1..];
    if name in r.selected then
      if name in r.records then Removal(Registry(listed, RemoveFirst(r.selected, name), r.records - {name}), true)
      else Removal(Registry(listed, RemoveFirst(r.selected, name), r.records), false)
    else Removal(Registry(listed, r.selected, r.records), true)
  }

  /** What curselection returns: rows in increasing order, in range. */
  predicate ValidRows(rows: seq<int>, n: int) {
    (forall k :: 0 <= k < |rows| ==> 0 <= rows[k] < n)
    && forall j, k :: 0 <= j < k < |rows| ==> rows[j] < rows[k]
  }

  /** The loop over reversed(curselection()), stopping at a KeyError. */
  function RemoveRows(r: Registry, rows: seq<int>): Removal
    requires ValidRows(rows, |r.listed|)
    decreases |rows|
  {
    if rows == [] then Removal(r, true)
    else
      var step := RemoveRow(r, rows[|rows| - 1]);
      if !step.ok then step else RemoveRows(step.reg, rows[..|rows| - 1])
  }

  /** Processing the last of the first k rows: a failed removal ends the
      loop, a completed one leaves the k - 1 rows before it, still in range. */
  lemma RemoveRowsStep(r: Registry, rows: seq<int>, k: int)
    requires 0 < k <= |rows| && ValidRows(rows[..k], |r.listed|)
    ensures var step := RemoveRow(r, rows[k - 1]);
      && (!step.ok ==> RemoveRows(r, rows[..k]) == step)
      && (step.ok ==> ValidRows(rows[..k - 1], |step.reg.listed|)
                      && RemoveRows(r, rows[..k]) == RemoveRows(step.reg, rows[..k - 1]))
  {
    assert rows[..k][..k - 1] == rows[..k - 1];
    assert rows[..k][k - 1] == rows[k - 1];
  }

  /** Removing the selected row deletes that row, the first occurrence of its
      name in selected_* and the name's record; every other row, entry and
      record stays where it was. */
  lemma RemoveSelectedRow(r: Registry, i: int)
    requires 0 <= i < |r.listed|
    requires r.listed[i] in r.selected && r.listed[i] in r.records
    ensures var d := RemoveRows(r, [i]);
      var name := r.listed[i];
      && d.ok
      && d.reg.listed == r.listed[..i] + r.listed[i + 1..]
      && d.reg.selected == RemoveFirst(r.selected, name)
      && multiset(d.reg.selected) == multiset(r.selected) - multiset{name}
      && name !in d.reg.records
      && (forall n :: n != name ==> (n in d.reg.records <==> n in r.records) && (n in r.records ==> d.reg.records[n] == r.records[n]))
  {
    assert [i][..0] == [];
    RemoveFirstMultiset(r.selected, r.listed[i]);
  }

  /** Removal never adds or changes a record, keeps the records of names it did
      not touch, and deletes one row per processed selection. */
  lemma {:induction false} RemoveRowsFrame(r: Registry, rows: seq<int>)
    requires ValidRows(rows, |r.listed|)
    decreases |rows|
    ensures var d := RemoveRows(r, rows);
      && (forall n :: n in d.reg.records ==> n in r.records && d.reg.records[n] == r.records[n])
      && (forall n :: n in r.records && (forall k :: 0 <= k < |rows| ==> r.listed[rows[k]] != n) ==> n in d.reg.records)
      && (d.ok ==> |d.reg.listed| == |r.listed| - |rows|)
      && |d.reg.listed| < |r.listed| + (if rows == [] then 1 else 0)
  {
    if rows != [] {
      var i := rows[|rows| - 1];
      var step := RemoveRow(r, i);
      var rest := rows[..|rows| - 1];
      if step.ok {
        assert |step.reg.listed| == |r.listed| - 1;
        assert forall k :: 0 <= k < |rest| ==> rest[k] < i;
        assert ValidRows(rest, |step.reg.listed|);
        RemoveRowsFrame(step.reg, rest);
        forall n | n in r.records && (forall k :: 0 <= k < |rows| ==> r.listed[rows[k]] != n)
          ensures forall k :: 0 <= k < |rest| ==> step.reg.listed[rest[k]] != n
        {
          forall k | 0 <= k < |rest| ensures step.reg.listed[rest[k]] != n {
            assert step.reg.listed[rest[k]] == r.listed[rest[k]];
            assert r.listed[rows[k]] != n;
          }
          assert r.listed[rows[|rows| - 1]] != n;
        }
      }
    }
  }
}
