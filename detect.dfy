/**
 * The change detector `check`: walks a bundle's entries in order, recursing into
 * entries that name bundles, capturing each local leaf's current modification time,
 * and stopping at the first entry found changed.
 */
module ChangeDetector {
  import opened Wrappers
  import opened BundleRegistry
  import opened FileSystem

  /** The answer of a check and the captured markers after it. */
  datatype Probe = Probe(changed: Result<bool>, ttime: Markers)

  ghost function CheckOutcome(reg: Registry, rank: map<string, nat>, name: string,
                              disk: Disk, mtime: Markers, ttime: Markers): Probe
    requires RankedBy(reg, rank) && name in reg.bundles
    decreases rank[name], 1, 0
  {
    CheckEntries(reg, rank, name, 0, disk, mtime, ttime)
  }

  /** The check from entry `i` of bundle `name` on. */
  ghost function CheckEntries(reg: Registry, rank: map<string, nat>, name: string, i: nat,
                              disk: Disk, mtime: Markers, ttime: Markers): Probe
    requires RankedBy(reg, rank) && name in reg.bundles && i <= |reg.bundles[name].files|
    decreases rank[name], 0, |reg.bundles[name].files| - i
  {
    var files := reg.bundles[name].files;
    if i == |files| then Probe(Ok(false), ttime)
    else
      var e := files[i];
      if e.name in reg.bundles then
        var sub := CheckOutcome(reg, rank, e.name, disk, mtime, ttime);
        if sub.changed == Ok(false) then CheckEntries(reg, rank, name, i + 1, disk, mtime, sub.ttime)
        else sub
      else if e.remote then CheckEntries(reg, rank, name, i + 1, disk, mtime, ttime)
      else if e.path !in disk then Probe(Err(StatFailed(e.path)), ttime)
      else
        var s := Slot(name, i);
        var now := disk[e.path].mtime;
        if s !in mtime || now != mtime[s] then Probe(Ok(true), ttime[s := now])
        else CheckEntries(reg, rank, name, i + 1, disk, mtime, ttime[s := now])
  }

  /**
   * The reference definition of "changed": some entry is a bundle that changed, or a
   * local leaf with no recorded marker or with a current modification time different
   * from (not merely newer than) the recorded one. Remote leaves never count.
   */
  ghost predicate Changed(reg: Registry, rank: map<string, nat>, name: string, disk: Disk, mtime: Markers)
    requires RankedBy(reg, rank) && name in reg.bundles
    decreases rank[name], 1, 0
  {
    ChangedFrom(reg, rank, name, 0, disk, mtime)
  }

  /** Some entry at index `i` or later changed. */
  ghost predicate ChangedFrom(reg: Registry, rank: map<string, nat>, name: string, i: nat, disk: Disk, mtime: Markers)
    requires RankedBy(reg, rank) && name in reg.bundles && i <= |reg.bundles[name].files|
    decreases rank[name], 0, |reg.bundles[name].files| - i
  {
    i < |reg.bundles[name].files| &&
    (EntryChanged(reg, rank, name, i, disk, mtime) || ChangedFrom(reg, rank, name, i + 1, disk, mtime))
  }

  ghost predicate EntryChanged(reg: Registry, rank: map<string, nat>, name: string, i: nat, disk: Disk, mtime: Markers)
    requires RankedBy(reg, rank) && name in reg.bundles && i < |reg.bundles[name].files|
    decreases rank[name], 0, 0
  {
    var e := reg.bundles[name].files[i];
    if e.name in reg.bundles then Changed(reg, rank, e.name, disk, mtime)
    else
      var s := Slot(name, i);
      !e.remote && (s !in mtime || (e.path in disk && disk[e.path].mtime != mtime[s]))
  }

  /** `Changed` is the existential it is meant to be. */
  lemma {:induction false} ChangedIffSomeEntry(reg: Registry, rank: map<string, nat>, name: string, i: nat,
                                              disk: Disk, mtime: Markers)
    requires RankedBy(reg, rank) && name in reg.bundles && i <= |reg.bundles[name].files|
    ensures ChangedFrom(reg, rank, name, i, disk, mtime)
        <==> exists j: nat :: i <= j < |reg.bundles[name].files| && EntryChanged(reg, rank, name, j, disk, mtime)
    decreases |reg.bundles[name].files| - i
  {
    if i < |reg.bundles[name].files| {
      ChangedIffSomeEntry(reg, rank, name, i + 1, disk, mtime);
      if EntryChanged(reg, rank, name, i, disk, mtime) {
        assert exists j: nat :: i <= j < |reg.bundles[name].files| && EntryChanged(reg, rank, name, j, disk, mtime);
      } else {
        assert forall j: nat :: i <= j < |reg.bundles[name].files| && EntryChanged(reg, rank, name, j, disk, mtime) ==>
                                 i + 1 <= j;
      }
    }
  }

  /** Every local leaf reachable from `name` exists on disk, so no stat fails. */
  ghost predicate Statable(reg: Registry, rank: map<string, nat>, name: string, disk: Disk)
    requires RankedBy(reg, rank) && name in reg.bundles
    decreases rank[name]
  {
    forall i :: 0 <= i < |reg.bundles[name].files| ==>
      var e := reg.bundles[name].files[i];
      if e.name in reg.bundles then Statable(reg, rank, e.name, disk) else e.remote || e.path in disk
  }

  /** Some local leaf is reachable from `name`. */
  ghost predicate HasLocalLeaf(reg: Registry, rank: map<string, nat>, name: string)
    requires RankedBy(reg, rank) && name in reg.bundles
    decreases rank[name], 1
  {
    LocalLeafFrom(reg, rank, name, 0)
  }

  ghost predicate LocalLeafFrom(reg: Registry, rank: map<string, nat>, name: string, i: nat)
    requires RankedBy(reg, rank) && name in reg.bundles && i <= |reg.bundles[name].files|
    decreases rank[name], 0, |reg.bundles[name].files| - i
  {
    i < |reg.bundles[name].files| &&
    (var e := reg.bundles[name].files[i];
     (if e.name in reg.bundles then HasLocalLeaf(reg, rank, e.name) else !e.remote)
     || LocalLeafFrom(reg, rank, name, i + 1))
  }

  /** Whenever `check` answers, it answers exactly whether the bundle changed; and when every
      stat succeeds, it answers. */
  lemma {:induction false} CheckDecidesChanged(reg: Registry, rank: map<string, nat>, name: string,
                                              disk: Disk, mtime: Markers, ttime: Markers)
    requires RankedBy(reg, rank) && name in reg.bundles
    ensures CheckOutcome(reg, rank, name, disk, mtime, ttime).changed.Ok? ==>
      CheckOutcome(reg, rank, name, disk, mtime, ttime).changed == Ok(Changed(reg, rank, name, disk, mtime))
    ensures Statable(reg, rank, name, disk) ==> CheckOutcome(reg, rank, name, disk, mtime, ttime).changed.Ok?
    decreases rank[name], 1, 0
  {
    CheckEntriesDecide(reg, rank, name, 0, disk, mtime, ttime);
  }

  lemma {:induction false} CheckEntriesDecide(reg: Registry, rank: map<string, nat>, name: string, i: nat,
                                             disk: Disk, mtime: Markers, ttime: Markers)
    requires RankedBy(reg, rank) && name in reg.bundles && i <= |reg.bundles[name].files|
    ensures CheckEntries(reg, rank, name, i, disk, mtime, ttime).changed.Ok? ==>
      CheckEntries(reg, rank, name, i, disk, mtime, ttime).changed == Ok(ChangedFrom(reg, rank, name, i, disk, mtime))
    ensures Statable(reg, rank, name, disk) ==> CheckEntries(reg, rank, name, i, disk, mtime, ttime).changed.Ok?
    decreases rank[name], 0, |reg.bundles[name].files| - i
  {
    var files := reg.bundles[name].files;
    if i < |files| {
      var e := files[i];
      if e.name in reg.bundles {
        CheckDecidesChanged(reg, rank, e.name, disk, mtime, ttime);
        var sub := CheckOutcome(reg, rank, e.name, disk, mtime, ttime);
        assert EntryChanged(reg, rank, name, i, disk, mtime) == Changed(reg, rank, e.name, disk, mtime);
        if Statable(reg, rank, name, disk) {
          assert Statable(reg, rank, e.name, disk);
        }
        if sub.changed == Ok(false) {
          CheckEntriesDecide(reg, rank, name, i + 1, disk, mtime, sub.ttime);
        }
      } else if e.remote {
        CheckEntriesDecide(reg, rank, name, i + 1, disk, mtime, ttime);
      } else if e.path in disk {
        var s := Slot(name, i);
        if s in mtime && disk[e.path].mtime == mtime[s] {
          CheckEntriesDecide(reg, rank, name, i + 1, disk, mtime, ttime[s := disk[e.path].mtime]);
        }
      }
    }
  }

  /** At process start (no marker recorded anywhere) a bundle counts as changed exactly
      when some local leaf is reachable from it. */
  lemma {:induction false} ColdStart(reg: Registry, rank: map<string, nat>, name: string, disk: Disk)
    requires RankedBy(reg, rank) && name in reg.bundles
    ensures Changed(reg, rank, name, disk, map[]) <==> HasLocalLeaf(reg, rank, name)
    decreases rank[name], 1
  {
    ColdStartFrom(reg, rank, name, 0, disk);
  }

  lemma {:induction false} ColdStartFrom(reg: Registry, rank: map<string, nat>, name: string, i: nat, disk: Disk)
    requires RankedBy(reg, rank) && name in reg.bundles && i <= |reg.bundles[name].files|
    ensures ChangedFrom(reg, rank, name, i, disk, map[]) <==> LocalLeafFrom(reg, rank, name, i)
    decreases rank[name], 0, |reg.bundles[name].files| - i
  {
    var files := reg.bundles[name].files;
    if i < |files| {
      if files[i].name in reg.bundles {
        ColdStart(reg, rank, files[i].name, disk);
      }
      ColdStartFrom(reg, rank, name, i + 1, disk);
    }
  }

  /** The path of the first local leaf reached from `name`, depth first in declared order,
      or `None` when no local leaf is reachable. */
  ghost function FirstLeaf(reg: Registry, rank: map<string, nat>, name: string): Option<string>
    requires RankedBy(reg, rank) && name in reg.bundles
    decreases rank[name], 1, 0
  {
    FirstLeafFrom(reg, rank, name, 0)
  }

  ghost function FirstLeafFrom(reg: Registry, rank: map<string, nat>, name: string, i: nat): Option<string>
    requires RankedBy(reg, rank) && name in reg.bundles && i <= |reg.bundles[name].files|
    decreases rank[name], 0, |reg.bundles[name].files| - i
  {
    if i == |reg.bundles[name].files| then None
    else
      var e := reg.bundles[name].files[i];
      if e.name in reg.bundles then
        match FirstLeaf(reg, rank, e.name)
        case Some(p) => Some(p)
        case None => FirstLeafFrom(reg, rank, name, i + 1)
      else if e.remote then FirstLeafFrom(reg, rank, name, i + 1)
      else Some(e.path)
  }

  /** There is a first local leaf exactly when some local leaf is reachable. */
  lemma {:induction false} FirstLeafFound(reg: Registry, rank: map<string, nat>, name: string, i: nat)
    requires RankedBy(reg, rank) && name in reg.bundles && i <= |reg.bundles[name].files|
    ensures FirstLeafFrom(reg, rank, name, i).Some? <==> LocalLeafFrom(reg, rank, name, i)
    decreases rank[name], |reg.bundles[name].files| - i
  {
    var files := reg.bundles[name].files;
    if i < |files| {
      if files[i].name in reg.bundles {
        FirstLeafFound(reg, rank, files[i].name, 0);
      }
      FirstLeafFound(reg, rank, name, i + 1);
    }
  }

  /** The answer of a cold-start check from entry `i` on: no local leaf reachable means
      unchanged; otherwise the first one reached decides, changed when it exists and a
      failed stat when it does not. */
  lemma {:induction false} ColdStartCheckFrom(reg: Registry, rank: map<string, nat>, name: string, i: nat,
                                             disk: Disk, ttime: Markers)
    requires RankedBy(reg, rank) && name in reg.bundles && i <= |reg.bundles[name].files|
    ensures CheckEntries(reg, rank, name, i, disk, map[], ttime).changed
         == match FirstLeafFrom(reg, rank, name, i)
            case None => Ok(false)
            case Some(p) => if p in disk then Ok(true) else Err(StatFailed(p))
    decreases rank[name], |reg.bundles[name].files| - i
  {
    var files := reg.bundles[name].files;
    if i < |files| {
      var e := files[i];
      if e.name in reg.bundles {
        ColdStartCheckFrom(reg, rank, e.name, 0, disk, ttime);
        var sub := CheckOutcome(reg, rank, e.name, disk, map[], ttime);
        if sub.changed == Ok(false) {
          ColdStartCheckFrom(reg, rank, name, i + 1, disk, sub.ttime);
        }
      } else if e.remote {
        ColdStartCheckFrom(reg, rank, name, i + 1, disk, ttime);
      }
    }
  }

  /**
   * The cold-start invariant for the check itself (no marker recorded anywhere): a bundle
   * reaching no local leaf is reported unchanged; otherwise the first local leaf reached
   * decides, the bundle being reported changed when that file exists and the check
   * failing with a stat error when it does not. So with every stat succeeding, the check
   * reports exactly whether some local leaf is reachable.
   */
  lemma ColdStartCheck(reg: Registry, rank: map<string, nat>, name: string, disk: Disk, ttime: Markers)
    requires RankedBy(reg, rank) && name in reg.bundles
    ensures CheckOutcome(reg, rank, name, disk, map[], ttime).changed
         == match FirstLeaf(reg, rank, name)
            case None => Ok(false)
            case Some(p) => if p in disk then Ok(true) else Err(StatFailed(p))
    ensures FirstLeaf(reg, rank, name).Some? <==> HasLocalLeaf(reg, rank, name)
    ensures Statable(reg, rank, name, disk) ==>
      CheckOutcome(reg, rank, name, disk, map[], ttime).changed == Ok(HasLocalLeaf(reg, rank, name))
  {
    ColdStartCheckFrom(reg, rank, name, 0, disk, ttime);
    FirstLeafFound(reg, rank, name, 0);
    if Statable(reg, rank, name, disk) {
      CheckDecidesChanged(reg, rank, name, disk, map[], ttime);
      ColdStart(reg, rank, name, disk);
    }
  }

  /** The answer of a check does not depend on the markers captured earlier. */
  lemma {:induction false} CheckIgnoresCaptured(reg: Registry, rank: map<string, nat>, name: string, i: nat,
                                               disk: Disk, mtime: Markers, t1: Markers, t2: Markers)
    requires RankedBy(reg, rank) && name in reg.bundles && i <= |reg.bundles[name].files|
    ensures CheckEntries(reg, rank, name, i, disk, mtime, t1).changed
         == CheckEntries(reg, rank, name, i, disk, mtime, t2).changed
    decreases rank[name], |reg.bundles[name].files| - i
  {
    var files := reg.bundles[name].files;
    if i < |files| {
      var e := files[i];
      if e.name in reg.bundles {
        CheckIgnoresCaptured(reg, rank, e.name, 0, disk, mtime, t1, t2);
        var s1 := CheckOutcome(reg, rank, e.name, disk, mtime, t1);
        var s2 := CheckOutcome(reg, rank, e.name, disk, mtime, t2);
        CheckIgnoresCaptured(reg, rank, name, i + 1, disk, mtime, s1.ttime, s2.ttime);
      } else if e.remote {
        CheckIgnoresCaptured(reg, rank, name, i + 1, disk, mtime, t1, t2);
      } else if e.path in disk {
        var s := Slot(name, i);
        var now := disk[e.path].mtime;
        CheckIgnoresCaptured(reg, rank, name, i + 1, disk, mtime, t1[s := now], t2[s := now]);
      }
    }
  }

  /** A bundle whose rank is at most `level`. */
  ghost predicate Touchable(reg: Registry, rank: map<string, nat>, level: int, b: string)
  {
    b in reg.bundles && b in rank && rank[b] <= level
  }

  /** A check captures markers only for entries of bundles reachable from it, all of
      which rank no higher than the bundle checked. */
  lemma {:induction false} CheckFramed(reg: Registry, rank: map<string, nat>, name: string, i: nat,
                                      disk: Disk, mtime: Markers, ttime: Markers)
    requires RankedBy(reg, rank) && name in reg.bundles && i <= |reg.bundles[name].files|
    ensures forall s: Slot :: !Touchable(reg, rank, rank[name], s.bundle) ==>
      Same(ttime, CheckEntries(reg, rank, name, i, disk, mtime, ttime).ttime, s)
    decreases rank[name], |reg.bundles[name].files| - i
  {
    var files := reg.bundles[name].files;
    if i < |files| {
      var e := files[i];
      if e.name in reg.bundles {
        CheckFramed(reg, rank, e.name, 0, disk, mtime, ttime);
        var sub := CheckOutcome(reg, rank, e.name, disk, mtime, ttime);
        if sub.changed == Ok(false) {
          CheckFramed(reg, rank, name, i + 1, disk, mtime, sub.ttime);
        }
      } else if e.remote {
        CheckFramed(reg, rank, name, i + 1, disk, mtime, ttime);
      } else if e.path in disk {
        var s := Slot(name, i);
        CheckFramed(reg, rank, name, i + 1, disk, mtime, ttime[s := disk[e.path].mtime]);
      }
    }
  }
}
