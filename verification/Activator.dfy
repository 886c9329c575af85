/**
 Activation as the program it is, with a fault injected at any system call, and
 the runs of the protocol that it performs.
 */
module Activator {
  import opened Text
  import opened Activation

  /** Where a copy fails, if it does. */
  datatype Fault = NoFault | BeforeWrite | DuringWrite(part: Bytes) | BeforeRename

  class Root {
    var disk: Disk

    constructor (d: Disk)
      ensures disk == d
    {
      disk := d;
    }

    /** Writes a temporary file and renames it; what is left of it at the end is removed. */
    method Replace(dest: Name, bytes: Bytes, temp: Name, fault: Fault) returns (ok: bool)
      requires temp !in disk && temp != dest
      modifies this
      ensures ok <==> fault == NoFault
      ensures disk == if ok then old(disk)[dest := bytes] else old(disk)
    {
      ok := fault == NoFault;
      if fault.DuringWrite? {
        disk := disk[temp := fault.part];
      } else if fault != BeforeWrite {
        disk := disk[temp := bytes];
        if fault != BeforeRename {
          disk := (disk - {temp})[dest := disk[temp]];
        }
      }
      if temp in disk {
        disk := disk - {temp};
      }
      assert disk == if ok then old(disk)[dest := bytes] else old(disk);
    }

    /** `saveOwnerKeyBackup` */
    method SaveOwnerKeyBackup(r: Run, temp: Name, fault: Fault) returns (ok: bool)
      requires temp !in disk && temp != r.backup
      modifies this
      ensures ok <==> r.backup !in old(disk) && fault == NoFault
      ensures disk == if ok then WithBackup(old(disk), r) else old(disk)
    {
      if r.backup in disk {
        return false;
      }
      ok := Replace(r.backup, r.key, temp, fault);
    }

    /** `commitStagedTree`: stops at the first file that cannot be put in place. */
    method CommitStagedTree(r: Run, temp: Name, faults: seq<Fault>) returns (placed: nat)
      requires temp !in disk && IsTemp(temp) && RunOk(r) && |faults| == |r.files|
      modifies this
      ensures placed <= |r.files| && disk == Placed(old(disk), r.files, placed)
      ensures forall i | 0 <= i < placed :: faults[i] == NoFault
      ensures placed < |r.files| ==> faults[placed] != NoFault
    {
      hide Markers, Destined;
      placed := 0;
      while placed < |r.files|
        invariant placed <= |r.files| && disk == Placed(old(disk), r.files, placed) && temp !in disk
        invariant forall i | 0 <= i < placed :: faults[i] == NoFault
      {
        var f := r.files[placed];
        var ok := Replace(f.dest, f.bytes, temp, faults[placed]);
        if !ok {
          return;
        }
        placed := placed + 1;
      }
    }

    /**
     `activateOffline`, from the checks on the root on: how far it got, or nothing if
     it was refused; `installed` says whether the root, `bin` and `etc` are there.
     */
    method ActivateOffline(r: Run, installed: bool, temp: Name, fault: Fault, faults: seq<Fault>)
      returns (placed: Option<nat>)
      requires temp !in disk && IsTemp(temp) && RunOk(r) && |faults| == |r.files|
      modifies this
      ensures placed.Some? <==>
        && installed && r.backup !in old(disk) && fault == NoFault
        && r.root + "/etc/node_identity.json" !in old(disk) && r.root + "/etc/start_config.json" !in old(disk)
        && r.root + "/etc/zone_document.jwt" !in old(disk) && r.root + "/etc/" + r.domain + ".zone.json" !in old(disk)
      ensures placed.None? ==> disk == old(disk)
      ensures placed.Some? ==> placed.value <= |r.files|
      ensures placed.Some? && (forall i | 0 <= i < |r.files| :: faults[i] == NoFault) ==> placed.value == |r.files|
      ensures disk == Applied(old(disk), r, placed)
    {
      UnmarkedIff(r, disk);
      if !installed || exists m | m in Markers(r) :: m in disk {
        return None;
      }
      hide Markers;
      var ok := SaveOwnerKeyBackup(r, temp, fault);
      if !ok {
        return None;
      }
      var k := CommitStagedTree(r, temp, faults);
      return Some(k);
    }
  }

  // ---- The runs of the protocol it performs ----

  function FileTrace(r: Run, t: Name, k: nat): seq<Step>
    requires k <= |r.files|
  {
    if k == 0 then [Start(r), Open(t, r.key), RenameBackup]
    else FileTrace(r, t, k - 1) + [Open(t, r.files[k - 1].bytes), RenameFile]
  }

  lemma {:induction false} Append(s: State, a: seq<Step>, b: seq<Step>, root: Name)
    requires Feasible(s, a, root) && Feasible(After(s, a, root), b, root)
    ensures Feasible(s, a + b, root) && After(s, a + b, root) == After(After(s, a, root), b, root)
    decreases |a|
  {
    if a == [] {
      assert a + b == b;
    } else {
      assert (a + b)[1..] == a[1..] + b;
      Append(Apply(s, a[0], root), a[1..], b, root);
    }
  }

  /** Two steps, one after the other. */
  lemma Twice(s: State, x: Step, y: Step, root: Name)
    requires Enabled(s, x, root) && Enabled(Apply(s, x, root), y, root)
    ensures Feasible(s, [x, y], root) && After(s, [x, y], root) == Apply(Apply(s, x, root), y, root)
  {
    var u := Apply(s, x, root);
    assert [x, y][1..] == [y] && [y][1..] == [];
    assert Feasible(Apply(u, y, root), [], root);
    assert Feasible(u, [y], root) && After(u, [y], root) == Apply(u, y, root);
  }

  lemma BackupTrace(s: State, r: Run, t: Name)
    requires s.phase == Idle && RunOk(r) && IsTemp(t) && t !in s.disk && r.backup !in s.disk
    requires forall m | m in Markers(r) :: m !in s.disk
    ensures
      var steps := [Start(r), Open(t, r.key), RenameBackup];
      && Feasible(s, steps, r.root)
      && After(s, steps, r.root) == State(WithBackup(s.disk, r), Committing, None, Some(Attempt(r, s.disk, Some(0))))
  {
    hide RunOk, Markers;
    var steps := [Start(r), Open(t, r.key), RenameBackup];
    var u := Apply(s, steps[0], r.root);
    assert steps[1..] == [Open(t, r.key), RenameBackup];
    Twice(u, Open(t, r.key), RenameBackup, r.root);
    assert (s.disk[t := r.key] - {t})[r.backup := r.key] == WithBackup(s.disk, r);
  }

  lemma FileStep(s: State, r: Run, base: Disk, t: Name, k: nat)
    requires RunOk(r) && k < |r.files| && IsTemp(t) && t !in s.disk
    requires s.phase == Committing && s.temp.None? && s.attempt == Some(Attempt(r, base, Some(k)))
    ensures
      var f := r.files[k];
      var steps := [Open(t, f.bytes), RenameFile];
      && Feasible(s, steps, r.root)
      && After(s, steps, r.root) ==
         State(s.disk[f.dest := f.bytes], Committing, None, Some(Attempt(r, base, Some(k + 1))))
  {
    hide RunOk;
    var f := r.files[k];
    Twice(s, Open(t, f.bytes), RenameFile, r.root);
    assert (s.disk[t := f.bytes] - {t})[f.dest := f.bytes] == s.disk[f.dest := f.bytes];
  }

  lemma {:induction false} NoTempPlaced(d: Disk, r: Run, t: Name, k: nat)
    requires RunOk(r) && k <= |r.files| && IsTemp(t) && t !in d
    ensures t !in Placed(WithBackup(d, r), r.files, k)
  {
    if k > 0 {
      NoTempPlaced(d, r, t, k - 1);
    }
  }

  /** The state in which a run on disk `d` has put `k` files in place. */
  function Reached(d: Disk, r: Run, k: nat): State
    requires k <= |r.files|
  {
    State(Placed(WithBackup(d, r), r.files, k), Committing, None, Some(Attempt(r, d, Some(k))))
  }

  lemma BackupReached(s: State, r: Run, t: Name)
    requires s.phase == Idle && RunOk(r) && IsTemp(t) && t !in s.disk && r.backup !in s.disk
    requires forall m | m in Markers(r) :: m !in s.disk
    ensures Feasible(s, FileTrace(r, t, 0), r.root)
    ensures After(s, FileTrace(r, t, 0), r.root) == Reached(s.disk, r, 0)
  {
    hide RunOk, Markers, IsTemp, Feasible, After;
    BackupTrace(s, r, t);
  }

  lemma NextFile(s: State, r: Run, t: Name, k: nat)
    requires RunOk(r) && IsTemp(t) && t !in s.disk && k < |r.files| && Feasible(s, FileTrace(r, t, k), r.root)
    requires After(s, FileTrace(r, t, k), r.root) == Reached(s.disk, r, k)
    ensures Feasible(s, FileTrace(r, t, k + 1), r.root)
    ensures After(s, FileTrace(r, t, k + 1), r.root) == Reached(s.disk, r, k + 1)
  {
    NoTempPlaced(s.disk, r, t, k);
    FileStep(Reached(s.disk, r, k), r, s.disk, t, k);
    Append(s, FileTrace(r, t, k), [Open(t, r.files[k].bytes), RenameFile], r.root);
  }

  /** Whenever a run is under way it can end, with its temporary file removed or left behind. */
  lemma CanStop(s: State, root: Name, clean: bool)
    requires Reachable(s, root) && s.phase != Idle
    ensures
      var left := if clean && s.temp.Some? then s.disk - {s.temp.value} else s.disk;
      Reachable(State(left, Idle, None, s.attempt), root)
  {
    hide Feasible, After, Enabled, Apply;
    var d, steps :| Feasible(Init(d), steps, root) && After(Init(d), steps, root) == s;
    StopStep(s, root, clean);
    Append(Init(d), steps, [Fail(clean)], root);
    assert Reachable(After(Init(d), steps + [Fail(clean)], root), root);
  }

  lemma StopStep(s: State, root: Name, clean: bool)
    requires s.phase != Idle
    ensures
      var left := if clean && s.temp.Some? then s.disk - {s.temp.value} else s.disk;
      Feasible(s, [Fail(clean)], root) && After(s, [Fail(clean)], root) == State(left, Idle, None, s.attempt)
  {
    var u := Apply(s, Fail(clean), root);
    assert [Fail(clean)][1..] == [] && Feasible(u, [], root) && After(u, [], root) == u;
  }

  /** From an unactivated disk, the program's own order of calls is a run of the protocol, and it can stop anywhere. */
  lemma {:induction false} ProgramIsRun(s: State, r: Run, t: Name, k: nat)
    requires s.phase == Idle && RunOk(r) && IsTemp(t) && t !in s.disk && r.backup !in s.disk && k <= |r.files|
    requires forall m | m in Markers(r) :: m !in s.disk
    ensures Feasible(s, FileTrace(r, t, k), r.root)
    ensures After(s, FileTrace(r, t, k), r.root) == Reached(s.disk, r, k)
  {
    hide *;
    if k == 0 {
      BackupReached(s, r, t);
    } else {
      ProgramIsRun(s, r, t, k - 1);
      NextFile(s, r, t, k - 1);
    }
  }

  /** Any name can be given the ending of a temporary one. */
  lemma TempName(p: Name, digits: string)
    requires |digits| == 12
    ensures IsTemp(p + ".active-" + digits)
  {
    var t := p + ".active-" + digits;
    assert t[|p|..|p| + 8] == ".active-";
  }

  lemma ReachedIsReachable(r: Run, t: Name, k: nat)
    requires RunOk(r) && IsTemp(t) && k <= |r.files|
    ensures Reachable(Reached(map[], r, k), r.root)
  {
    ProgramIsRun(Init(map[]), r, t, k);
  }

  /** Any number of files can be reached in place. */
  lemma Reaches(r: Run, k: nat)
    requires RunOk(r) && k <= |r.files|
    ensures Reachable(Reached(map[], r, k), r.root)
  {
    hide RunOk, Reachable, Reached, IsTemp;
    var digits := seq(12, _ => '0');
    TempName(r.backup, digits);
    ReachedIsReachable(r, r.backup + ".active-" + digits, k);
  }

  /** Where a staged file goes to the place of the backup, a run can leave the root changed and the key lost. */
  lemma BackupLost(r: Run, i: nat)
    requires RunOk(r) && i < |r.files| && r.files[i].dest == r.backup && r.files[i].bytes != r.key
    ensures
      var s := Reached(map[], r, i + 1);
      Reachable(s, r.root) && !BackupFirst(s) && Lookup(s.disk, r.backup) == Some(r.files[i].bytes)
  {
    Reaches(r, i + 1);
    LostIn(Reached(map[], r, i + 1), r, i);
    OldOrComplete(Reached(map[], r, i + 1), r.root, i);
  }

  /** ... and before that file's turn its place holds the key, neither old nor staged. */
  lemma KeyInPlace(r: Run, i: nat)
    requires RunOk(r) && i < |r.files| && r.files[i].dest == r.backup && r.files[i].bytes != r.key
    ensures Reachable(Reached(map[], r, 0), r.root) && !OldOrWhole(Reached(map[], r, 0))
  {
    Reaches(r, 0);
    var s := Reached(map[], r, 0);
    OldOrComplete(s, r.root, i);
    assert Lookup(s.disk, r.files[i].dest) == Some(r.key) && Lookup(map[], r.files[i].dest) == None;
  }

  lemma LostIn(s: State, r: Run, i: nat)
    requires RunOk(r) && i < |r.files| && r.files[i].dest == r.backup && r.files[i].bytes != r.key
    requires Reachable(s, r.root) && s == Reached(map[], r, i + 1)
    ensures !BackupFirst(s)
  {
    OldOrComplete(s, r.root, i);
    assert Lookup(s.disk, r.files[i].dest) != Lookup(map[], r.files[i].dest);
  }

  /**
   In every state of every sequence of runs a changed destination means a complete
   backup, exactly if no staged file with other contents goes to the backup's place.
   */
  lemma BackupFirstIff(r: Run)
    requires RunOk(r)
    ensures
      (forall s | Reachable(s, r.root) && s.attempt.Some? && s.attempt.value.run == r :: BackupFirst(s))
        <==> BackupSpared(r)
  {
    if BackupSpared(r) {
      forall s | Reachable(s, r.root) && s.attempt.Some? && s.attempt.value.run == r ensures BackupFirst(s) {
        SparedBackupFirst(s, r.root);
      }
    } else {
      var i :| 0 <= i < |r.files| && r.files[i].dest == r.backup && r.files[i].bytes != r.key;
      BackupLost(r, i);
    }
  }

  /** In the same way every destination is old or whole in every state, exactly if the backup's place is spared. */
  lemma OldOrWholeIff(r: Run)
    requires RunOk(r)
    ensures
      (forall s | Reachable(s, r.root) && s.attempt.Some? && s.attempt.value.run == r :: OldOrWhole(s))
        <==> BackupSpared(r)
  {
    if BackupSpared(r) {
      forall s | Reachable(s, r.root) && s.attempt.Some? && s.attempt.value.run == r ensures OldOrWhole(s) {
        SparedOldOrWhole(s, r.root);
      }
    } else {
      var i :| 0 <= i < |r.files| && r.files[i].dest == r.backup && r.files[i].bytes != r.key;
      KeyInPlace(r, i);
    }
  }

  // ---- A run that loses its key ----

  /** The markers of a root, and the bytes staged for each. */
  function MarkerFiles(root: Name, domain: string): (f: seq<Staged>)
    ensures |f| == 4
  {
    [Staged(root + "/etc/start_config.json", "start"), Staged(root + "/etc/node_identity.json", "node"),
     Staged(root + "/etc/zone_document.jwt", "zone"), Staged(root + "/etc/" + domain + ".zone.json", "boot")]
  }

  /** The backup is sent to the place of the start configuration. */
  function Careless(): Run {
    Run("r", "d", "r" + "/etc/start_config.json", "key", MarkerFiles("r", "d"))
  }

  /** The markers differ in the first letter of their names, and none has the dot of a temporary file in its place. */
  lemma CarelessNames()
    ensures
      var f := MarkerFiles("r", "d");
      && |f| == 4 && |f[0].dest| == |f[2].dest| == 23 && |f[1].dest| == 24 && |f[3].dest| == 17
      && f[0].dest[6] == 's' && f[1].dest[6] == 'n' && f[2].dest[6] == 'z' && f[3].dest[6] == 'd'
      && f[0].dest[3] != '.' && f[1].dest[4] != '.' && f[2].dest[3] != '.'
  {
  }

  lemma NotTemp(p: Name)
    requires |p| < 20 || p[|p| - 20] != '.'
    ensures !IsTemp(p)
  {
    if |p| >= 20 {
      assert p[|p| - 20..|p| - 12][0] == p[|p| - 20];
    }
  }

  lemma CarelessApart()
    ensures
      var f := MarkerFiles("r", "d");
      && (forall i, k | 0 <= i < k < |f| :: f[i].dest != f[k].dest)
      && (forall i | 0 <= i < |f| :: !IsTemp(f[i].dest))
  {
    var f := MarkerFiles("r", "d");
    CarelessNames();
    hide MarkerFiles, IsTemp;
    NotTemp(f[0].dest);
    NotTemp(f[1].dest);
    NotTemp(f[2].dest);
    NotTemp(f[3].dest);
  }

  lemma CarelessIsOk()
    ensures RunOk(Careless())
  {
    CarelessApart();
    hide IsTemp;
    var r := Careless();
    assert Destined(r, r.files[0].dest) && Destined(r, r.files[1].dest);
    assert Destined(r, r.files[2].dest) && Destined(r, r.files[3].dest);
  }

  /** With its first file in place, the careless run has written over its only copy of the key. */
  lemma CarelessRun()
    ensures
      var r := Careless();
      && Reachable(Reached(map[], r, 0), "r") && !OldOrWhole(Reached(map[], r, 0))
      && Reachable(Reached(map[], r, 1), "r") && !BackupFirst(Reached(map[], r, 1))
      && Reached(map[], r, 1).disk == map[r.backup := "start"]
  {
    CarelessIsOk();
    CarelessDisk();
    hide RunOk, Reachable, BackupFirst, OldOrWhole, Reached;
    BackupLost(Careless(), 0);
    KeyInPlace(Careless(), 0);
  }

  lemma CarelessDisk()
    ensures Reached(map[], Careless(), 1).disk == map[Careless().backup := "start"]
  {
    var r := Careless();
    assert Placed(WithBackup(map[], r), r.files, 0) == map[r.backup := r.key];
    assert Placed(WithBackup(map[], r), r.files, 1) == map[r.backup := r.key][r.backup := "start"];
  }
}
