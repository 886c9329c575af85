/**
 Offline activation of an installed root: check that nothing is activated yet,
 put the owner key backup in place, then the staged files one by one, each by
 writing a temporary file and renaming it. Any step may be the last: a run can
 fail, with or without removing its temporary file, or crash at any point. Runs
 follow one another on the same disk.
 */
module Activation {
  import opened Text

  type Name = string
  type Bytes = string
  type Disk = map<Name, Bytes>

  datatype Staged = Staged(dest: Name, bytes: Bytes)

  /** One activation: its root, domain, owner key backup and staged files in commit order. */
  datatype Run = Run(root: Name, domain: string, backup: Name, key: Bytes, files: seq<Staged>)

  /** The marker files of every activation of a root, whatever the domain. */
  function CommonMarkers(root: Name): set<Name> {
    {root + "/etc/node_identity.json", root + "/etc/start_config.json", root + "/etc/zone_document.jwt"}
  }

  function Markers(r: Run): set<Name> {
    CommonMarkers(r.root) + {r.root + "/etc/" + r.domain + ".zone.json"}
  }

  /** An activated root is known by four files. */
  lemma UnmarkedIff(r: Run, d: Disk)
    ensures (forall m | m in Markers(r) :: m !in d) <==>
      && r.root + "/etc/node_identity.json" !in d && r.root + "/etc/start_config.json" !in d
      && r.root + "/etc/zone_document.jwt" !in d && r.root + "/etc/" + r.domain + ".zone.json" !in d
  {
    forall m
      ensures m in Markers(r) <==>
        || m == r.root + "/etc/node_identity.json" || m == r.root + "/etc/start_config.json"
        || m == r.root + "/etc/zone_document.jwt" || m == r.root + "/etc/" + r.domain + ".zone.json"
    {
    }
  }

  /** Temporary files end in ".active-" and twelve random digits. */
  predicate IsTemp(p: Name) {
    |p| >= 20 && p[|p| - 20..|p| - 12] == ".active-"
  }

  predicate Destined(r: Run, p: Name) {
    exists i | 0 <= i < |r.files| :: r.files[i].dest == p
  }

  /** Staged files have places of their own, the markers are among them, and no name is a temporary one. */
  ghost predicate RunOk(r: Run) {
    && (forall i, k | 0 <= i < k < |r.files| :: r.files[i].dest != r.files[k].dest)
    && (forall m | m in Markers(r) :: Destined(r, m))
    && !IsTemp(r.backup) && (forall i | 0 <= i < |r.files| :: !IsTemp(r.files[i].dest))
  }

  // ---- What a run does to a disk, in one go ----

  /** The first `k` staged files in their places. */
  function Placed(d: Disk, files: seq<Staged>, k: nat): Disk
    requires k <= |files|
  {
    if k == 0 then d else Placed(d, files, k - 1)[files[k - 1].dest := files[k - 1].bytes]
  }

  function WithBackup(d: Disk, r: Run): Disk {
    d[r.backup := r.key]
  }

  /** How far a run got: not to the backup, or past it and `k` files. */
  function Applied(d: Disk, r: Run, placed: Option<nat>): Disk
    requires placed.Some? ==> placed.value <= |r.files|
  {
    if placed.None? then d else Placed(WithBackup(d, r), r.files, placed.value)
  }

  function Lookup(d: Disk, p: Name): Option<Bytes> {
    if p in d then Some(d[p]) else None
  }

  lemma {:induction false} PlacedAt(d: Disk, files: seq<Staged>, k: nat, p: Name)
    requires k <= |files| && forall i, j | 0 <= i < j < |files| :: files[i].dest != files[j].dest
    ensures forall i | 0 <= i < k && files[i].dest == p :: Lookup(Placed(d, files, k), p) == Some(files[i].bytes)
    ensures (forall i | 0 <= i < k :: files[i].dest != p) ==> Lookup(Placed(d, files, k), p) == Lookup(d, p)
  {
    if k > 0 {
      PlacedAt(d, files, k - 1, p);
    }
  }

  // ---- The protocol ----

  datatype Phase = Idle | Saving | Committing

  /** The last run started, the disk it found, and how far it got. */
  datatype Attempt = Attempt(run: Run, base: Disk, placed: Option<nat>)

  datatype State = State(disk: Disk, phase: Phase, temp: Option<Name>, attempt: Option<Attempt>)

  datatype Step =
    | Start(run: Run)
    | Open(temp: Name, part: Bytes)
    | Write(part: Bytes)
    | RenameBackup
    | RenameFile
    | Finish
    | Fail(clean: bool)

  function Init(d: Disk): State {
    State(d, Idle, None, None)
  }

  ghost predicate Enabled(s: State, step: Step, root: Name) {
    match step
    case Start(r) => s.phase == Idle && r.root == root && RunOk(r) && forall m | m in Markers(r) :: m !in s.disk
    case Open(t, part) =>
      && s.phase != Idle && s.attempt.Some? && s.temp.None? && IsTemp(t)
      && (s.phase == Saving ==> s.attempt.value.run.backup !in s.disk)
    case Write(part) => s.phase != Idle && s.temp.Some?
    case RenameBackup =>
      && s.phase == Saving && s.attempt.Some? && s.temp.Some?
      && Lookup(s.disk, s.temp.value) == Some(s.attempt.value.run.key)
    case RenameFile =>
      && s.phase == Committing && s.attempt.Some? && s.temp.Some? && s.attempt.value.placed.Some?
      && var r, k := s.attempt.value.run, s.attempt.value.placed.value;
      && k < |r.files| && Lookup(s.disk, s.temp.value) == Some(r.files[k].bytes)
    case Finish =>
      && s.phase == Committing && s.temp.None? && s.attempt.Some?
      && s.attempt.value.placed == Some(|s.attempt.value.run.files|)
    case Fail(clean) => s.phase != Idle
  }

  function Without(d: Disk, t: Option<Name>): Disk {
    if t.Some? then d - {t.value} else d
  }

  ghost function Apply(s: State, step: Step, root: Name): State
    requires Enabled(s, step, root)
  {
    match step
    case Start(r) => State(s.disk, Saving, None, Some(Attempt(r, s.disk, None)))
    case Open(t, part) => s.(disk := s.disk[t := part], temp := Some(t))
    case Write(part) => s.(disk := s.disk[s.temp.value := part])
    case RenameBackup =>
      var a := s.attempt.value;
      var bytes := s.disk[s.temp.value];
      State((s.disk - {s.temp.value})[a.run.backup := bytes], Committing, None, Some(a.(placed := Some(0))))
    case RenameFile =>
      var a := s.attempt.value;
      var dest, bytes := a.run.files[a.placed.value].dest, s.disk[s.temp.value];
      var now := a.(placed := Some(a.placed.value + 1));
      State((s.disk - {s.temp.value})[dest := bytes], Committing, None, Some(now))
    case Finish => s.(phase := Idle)
    case Fail(clean) => State(if clean then Without(s.disk, s.temp) else s.disk, Idle, None, s.attempt)
  }

  ghost predicate Feasible(s: State, steps: seq<Step>, root: Name)
    decreases |steps|
  {
    steps != [] ==> Enabled(s, steps[0], root) && Feasible(Apply(s, steps[0], root), steps[1..], root)
  }

  ghost function After(s: State, steps: seq<Step>, root: Name): State
    requires Feasible(s, steps, root)
    decreases |steps|
  {
    if steps == [] then s else After(Apply(s, steps[0], root), steps[1..], root)
  }

  // ---- What every step keeps ----

  /** Temporary files aside, the disk is what the last run found with what it put in place. */
  ghost predicate Agrees(d: Disk, a: Attempt)
    requires a.placed.Some? ==> a.placed.value <= |a.run.files|
  {
    forall p {:trigger Lookup(d, p)} | !IsTemp(p) :: Lookup(d, p) == Lookup(Applied(a.base, a.run, a.placed), p)
  }

  ghost predicate AttemptOk(a: Attempt, d: Disk, root: Name) {
    && a.run.root == root && RunOk(a.run)
    && (forall m | m in Markers(a.run) :: m !in a.base)
    && (a.placed.Some? ==> a.placed.value <= |a.run.files|)
    && Agrees(d, a)
  }

  ghost predicate Sound(s: State, root: Name) {
    && (s.attempt.Some? ==> AttemptOk(s.attempt.value, s.disk, root))
    && (s.phase == Saving ==> s.attempt.Some? && s.attempt.value.placed.None?)
    && (s.phase == Committing ==> s.attempt.Some? && s.attempt.value.placed.Some?)
    && (s.temp.Some? ==> s.phase != Idle && IsTemp(s.temp.value))
  }

  /** A change at temporary names only is no change to speak of. */
  lemma TempsAside(d: Disk, e: Disk, a: Attempt, root: Name)
    requires AttemptOk(a, d, root) && forall p | !IsTemp(p) :: Lookup(e, p) == Lookup(d, p)
    ensures AttemptOk(a, e, root)
  {
  }

  lemma RenamedBackup(d: Disk, t: Name, a: Attempt, root: Name)
    requires AttemptOk(a, d, root) && a.placed.None? && IsTemp(t)
    ensures AttemptOk(a.(placed := Some(0)), (d - {t})[a.run.backup := a.run.key], root)
  {
    var b := a.(placed := Some(0));
    var e := (d - {t})[a.run.backup := a.run.key];
    forall p | !IsTemp(p) ensures Lookup(e, p) == Lookup(Applied(b.base, b.run, b.placed), p) {
      assert Lookup(d, p) == Lookup(a.base, p);
    }
  }

  lemma PlacedNext(d: Disk, files: seq<Staged>, k: nat, p: Name)
    requires k < |files|
    ensures Lookup(Placed(d, files, k + 1), p) ==
      if p == files[k].dest then Some(files[k].bytes) else Lookup(Placed(d, files, k), p)
  {
  }

  lemma RenamedFile(d: Disk, t: Name, a: Attempt, root: Name)
    requires AttemptOk(a, d, root) && a.placed.Some? && a.placed.value < |a.run.files| && IsTemp(t)
    ensures
      var f := a.run.files[a.placed.value];
      AttemptOk(a.(placed := Some(a.placed.value + 1)), (d - {t})[f.dest := f.bytes], root)
  {
    hide RunOk, Markers;
    var k := a.placed.value;
    var f := a.run.files[k];
    var e := (d - {t})[f.dest := f.bytes];
    var d0 := WithBackup(a.base, a.run);
    forall p | !IsTemp(p) ensures Lookup(e, p) == Lookup(Placed(d0, a.run.files, k + 1), p) {
      assert Lookup(d, p) == Lookup(Placed(d0, a.run.files, k), p);
      PlacedNext(d0, a.run.files, k, p);
    }
  }

  lemma StepSound(s: State, step: Step, root: Name)
    requires Sound(s, root) && Enabled(s, step, root)
    ensures Sound(Apply(s, step, root), root)
  {
    match step
    case Start(r) =>
    case Open(t, part) => TempsAside(s.disk, s.disk[t := part], s.attempt.value, root);
    case Write(part) => TempsAside(s.disk, s.disk[s.temp.value := part], s.attempt.value, root);
    case RenameBackup => RenamedBackup(s.disk, s.temp.value, s.attempt.value, root);
    case RenameFile => RenamedFile(s.disk, s.temp.value, s.attempt.value, root);
    case Finish =>
    case Fail(clean) => TempsAside(s.disk, Apply(s, step, root).disk, s.attempt.value, root);
  }

  lemma {:induction false} RunSound(s: State, steps: seq<Step>, root: Name)
    requires Sound(s, root) && Feasible(s, steps, root)
    ensures Sound(After(s, steps, root), root)
    decreases |steps|
  {
    if steps != [] {
      StepSound(s, steps[0], root);
      RunSound(Apply(s, steps[0], root), steps[1..], root);
    }
  }

  /** A state that some sequence of runs, whole or broken off, leads to. */
  ghost predicate Reachable(s: State, root: Name) {
    exists d, steps :: Feasible(Init(d), steps, root) && After(Init(d), steps, root) == s
  }

  lemma ReachableSound(s: State, root: Name)
    requires Reachable(s, root)
    ensures Sound(s, root)
  {
    var d, steps :| Feasible(Init(d), steps, root) && After(Init(d), steps, root) == s;
    RunSound(Init(d), steps, root);
  }

  /** A backup is only written where none was. */
  ghost predicate BackupNew(s: State) {
    && (s.phase == Saving && s.temp.Some? && s.attempt.Some? ==> s.attempt.value.run.backup !in s.disk)
    && (s.attempt.Some? && s.attempt.value.placed.Some? ==> s.attempt.value.run.backup !in s.attempt.value.base)
  }

  lemma StepBackupNew(s: State, step: Step, root: Name)
    requires Sound(s, root) && BackupNew(s) && Enabled(s, step, root)
    ensures BackupNew(Apply(s, step, root))
  {
    hide Markers, Destined;
    if s.attempt.Some? && s.phase == Saving {
      var a := s.attempt.value;
      assert Lookup(s.disk, a.run.backup) == Lookup(Applied(a.base, a.run, a.placed), a.run.backup);
    }
  }

  lemma {:induction false} RunBackupNew(s: State, steps: seq<Step>, root: Name)
    requires Sound(s, root) && BackupNew(s) && Feasible(s, steps, root)
    ensures BackupNew(After(s, steps, root))
    decreases |steps|
  {
    if steps != [] {
      StepSound(s, steps[0], root);
      StepBackupNew(s, steps[0], root);
      RunBackupNew(Apply(s, steps[0], root), steps[1..], root);
    }
  }

  // ---- What activation promises ----

  /** A run that finds a backup in its place never gets past it: nothing is changed, temporary files aside. */
  lemma ExistingBackupSpared(s: State, root: Name, p: Name)
    requires Reachable(s, root) && s.attempt.Some? && s.attempt.value.run.backup in s.attempt.value.base && !IsTemp(p)
    ensures s.attempt.value.placed.None? && Lookup(s.disk, p) == Lookup(s.attempt.value.base, p)
  {
    ReachableSound(s, root);
    var d, steps :| Feasible(Init(d), steps, root) && After(Init(d), steps, root) == s;
    RunBackupNew(Init(d), steps, root);
  }

  /** The `i`th staged file has been put in place. */
  ghost predicate InPlace(a: Attempt, i: int) {
    a.placed.Some? && 0 <= i < |a.run.files| && i < a.placed.value
  }

  /**
   A destination in place holds all of what was staged for it. Any other holds what
   the run found there, unless the owner key backup has been put in that very place.
   */
  lemma OldOrComplete(s: State, root: Name, i: nat)
    requires Reachable(s, root) && s.attempt.Some? && i < |s.attempt.value.run.files|
    ensures
      var a := s.attempt.value;
      var f := a.run.files[i];
      if InPlace(a, i) then Lookup(s.disk, f.dest) == Some(f.bytes)
      else if a.placed.Some? && f.dest == a.run.backup then Lookup(s.disk, f.dest) == Some(a.run.key)
      else Lookup(s.disk, f.dest) == Lookup(a.base, f.dest)
  {
    ReachableSound(s, root);
    var a := s.attempt.value;
    if a.placed.Some? {
      PlacedAt(WithBackup(a.base, a.run), a.run.files, a.placed.value, a.run.files[i].dest);
    }
  }

  /** No other file is touched, temporary ones aside. */
  lemma OthersUntouched(s: State, root: Name, p: Name)
    requires Reachable(s, root) && s.attempt.Some? && !IsTemp(p)
    requires p != s.attempt.value.run.backup && !Destined(s.attempt.value.run, p)
    ensures Lookup(s.disk, p) == Lookup(s.attempt.value.base, p)
  {
    ReachableSound(s, root);
    var a := s.attempt.value;
    if a.placed.Some? {
      PlacedAt(WithBackup(a.base, a.run), a.run.files, a.placed.value, p);
    }
  }

  /** The staged file, if any, that goes to the place of the backup is the key itself. */
  ghost predicate BackupSpared(r: Run) {
    forall i | 0 <= i < |r.files| && r.files[i].dest == r.backup :: r.files[i].bytes == r.key
  }

  /**
   Once the backup has been put in place it holds the key, exactly as long as no
   staged file with other contents has been put in the same place.
   */
  lemma BackupCompleteIff(s: State, root: Name)
    requires Reachable(s, root) && s.attempt.Some? && s.attempt.value.placed.Some?
    ensures
      var a := s.attempt.value;
      Lookup(s.disk, a.run.backup) == Some(a.run.key) <==>
        forall i | InPlace(a, i) && a.run.files[i].dest == a.run.backup :: a.run.files[i].bytes == a.run.key
  {
    ReachableSound(s, root);
    var a := s.attempt.value;
    PlacedAt(WithBackup(a.base, a.run), a.run.files, a.placed.value, a.run.backup);
  }

  /** If a destination has changed, the owner key backup is complete. */
  ghost predicate BackupFirst(s: State) {
    s.attempt.Some? ==>
      var a := s.attempt.value;
      forall i | 0 <= i < |a.run.files| && Lookup(s.disk, a.run.files[i].dest) != Lookup(a.base, a.run.files[i].dest) ::
        Lookup(s.disk, a.run.backup) == Some(a.run.key)
  }

  lemma SparedBackupFirst(s: State, root: Name)
    requires Reachable(s, root) && (s.attempt.Some? ==> BackupSpared(s.attempt.value.run))
    ensures BackupFirst(s)
  {
    if s.attempt.Some? {
      var a := s.attempt.value;
      forall i | 0 <= i < |a.run.files| && Lookup(s.disk, a.run.files[i].dest) != Lookup(a.base, a.run.files[i].dest)
        ensures Lookup(s.disk, a.run.backup) == Some(a.run.key)
      {
        OldOrComplete(s, root, i);
        BackupCompleteIff(s, root);
      }
    }
  }

  /** Every destination holds what the last run found there, or all of what it staged for it. */
  ghost predicate OldOrWhole(s: State) {
    s.attempt.Some? ==>
      var a := s.attempt.value;
      forall i | 0 <= i < |a.run.files| ::
        || Lookup(s.disk, a.run.files[i].dest) == Lookup(a.base, a.run.files[i].dest)
        || Lookup(s.disk, a.run.files[i].dest) == Some(a.run.files[i].bytes)
  }

  lemma SparedOldOrWhole(s: State, root: Name)
    requires Reachable(s, root) && (s.attempt.Some? ==> BackupSpared(s.attempt.value.run))
    ensures OldOrWhole(s)
  {
    if s.attempt.Some? {
      forall i | 0 <= i < |s.attempt.value.run.files|
        ensures
          var a := s.attempt.value;
          || Lookup(s.disk, a.run.files[i].dest) == Lookup(a.base, a.run.files[i].dest)
          || Lookup(s.disk, a.run.files[i].dest) == Some(a.run.files[i].bytes)
      {
        OldOrComplete(s, root, i);
      }
    }
  }

  /** Every marker on the disk after a run has started was put there by that run, with its bytes. */
  lemma MarkersOfOneRun(s: State, root: Name, m: Name)
    requires Reachable(s, root) && s.attempt.Some? && m in Markers(s.attempt.value.run) && m in s.disk
    requires m != s.attempt.value.run.backup
    ensures
      var a := s.attempt.value;
      exists i :: InPlace(a, i) && a.run.files[i].dest == m && s.disk[m] == a.run.files[i].bytes
  {
    ReachableSound(s, root);
    var a := s.attempt.value;
    var i :| 0 <= i < |a.run.files| && a.run.files[i].dest == m;
    OldOrComplete(s, root, i);
  }

  /** On an idle disk a run can start exactly if none of its four markers is there. */
  lemma StartIff(s: State, r: Run)
    requires s.phase == Idle && RunOk(r)
    ensures Enabled(s, Start(r), r.root) <==>
      && r.root + "/etc/node_identity.json" !in s.disk && r.root + "/etc/start_config.json" !in s.disk
      && r.root + "/etc/zone_document.jwt" !in s.disk && r.root + "/etc/" + r.domain + ".zone.json" !in s.disk
  {
    hide RunOk;
    UnmarkedIff(r, s.disk);
  }

  /** With a marker on the disk no run can start. */
  lemma MarkerBars(s: State, step: Step, root: Name)
    requires s.phase == Idle && exists m | m in CommonMarkers(root) :: m in s.disk
    ensures !Enabled(s, step, root)
  {
    var m :| m in CommonMarkers(root) && m in s.disk;
    assert step.Start? && step.run.root == root ==> m in Markers(step.run);
  }

  /** With a marker on the disk and no run under way, nothing changes any more. */
  lemma BarredForGood(s: State, steps: seq<Step>, root: Name)
    requires s.phase == Idle && Feasible(s, steps, root) && exists m | m in CommonMarkers(root) :: m in s.disk
    ensures After(s, steps, root) == s
  {
    if steps != [] {
      MarkerBars(s, steps[0], root);
    }
  }

  /** A finished run has put everything in place, and no later run changes the disk. */
  lemma CompletedForGood(s: State, steps: seq<Step>, root: Name)
    requires Reachable(s, root) && Enabled(s, Finish, root)
    requires Feasible(Apply(s, Finish, root), steps, root)
    ensures
      var r := s.attempt.value.run;
      var d := After(Apply(s, Finish, root), steps, root).disk;
      d == s.disk && forall i | 0 <= i < |r.files| :: Lookup(d, r.files[i].dest) == Some(r.files[i].bytes)
  {
    ReachableSound(s, root);
    var r := s.attempt.value.run;
    forall i | 0 <= i < |r.files| ensures Lookup(s.disk, r.files[i].dest) == Some(r.files[i].bytes) {
      OldOrComplete(s, root, i);
    }
    var m := root + "/etc/node_identity.json";
    assert m in Markers(r) && m in CommonMarkers(root);
    assert m in s.disk;
    BarredForGood(Apply(s, Finish, root), steps, root);
  }
}
