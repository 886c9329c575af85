/**
 The local install, update and uninstall actions of make_local_deb.py on a
 target tree. Modules are overwritten; data paths are filled in only where
 nothing exists. An action that fails stops and leaves what it did so far.
 */
module TreeUpdate {
  import opened Text
  import opened FileTree

  /** One item: where it goes, unless that is outside the root, and what goes there, unless its source is missing. */
  datatype Job = Job(dst: Option<Path>, image: Option<Tree>)

  datatype Plan = Plan(root: Path, modules: seq<Job>, data: seq<Job>, clean: seq<Option<Path>>)

  predicate Ready(j: Job) {
    j.dst.Some? && j.image.Some?
  }

  ghost predicate JobOk(root: Path, j: Job) {
    && (j.dst.Some? ==> root <= j.dst.value)
    && (Ready(j) ==> HangsAt(j.image.value, j.dst.value))
  }

  ghost predicate PlanOk(l: Plan) {
    && (forall i | 0 <= i < |l.modules| :: JobOk(l.root, l.modules[i]))
    && (forall i | 0 <= i < |l.data| :: JobOk(l.root, l.data[i]))
    && (forall i | 0 <= i < |l.clean| && l.clean[i].Some? :: l.root <= l.clean[i].value)
  }

  // ---- One item ----

  /** The tree an action leaves behind, and whether it got to its end. */
  datatype Outcome = Outcome(tree: Tree, ok: bool)

  /** Make the directories above, then put the image in place of what was there. */
  function Place(t: Tree, dst: Path, image: Tree): Outcome {
    if CanMakeDirs(t, Parent(dst)) then Outcome(Graft(MakeDirs(t, Parent(dst)), dst, image), true)
    else Outcome(t, false)
  }

  function InstallModule(t: Tree, j: Job): Outcome {
    if Ready(j) then Place(t, j.dst.value, j.image.value) else Outcome(t, false)
  }

  function InstallData(t: Tree, j: Job): Outcome {
    if !Ready(j) then Outcome(t, false)
    else if j.dst.value in t then Outcome(t, true)
    else Place(t, j.dst.value, j.image.value)
  }

  // ---- The actions ----

  function Modules(t: Tree, l: Plan, n: nat): Outcome
    requires n <= |l.modules|
  {
    if n == 0 then Outcome(t, true)
    else
      var o := Modules(t, l, n - 1);
      if o.ok then InstallModule(o.tree, l.modules[n - 1]) else o
  }

  function Datas(t: Tree, l: Plan, n: nat): Outcome
    requires n <= |l.data|
  {
    if n == 0 then Outcome(t, true)
    else
      var o := Datas(t, l, n - 1);
      if o.ok then InstallData(o.tree, l.data[n - 1]) else o
  }

  /** `action_update` */
  function Update(t: Tree, l: Plan): Outcome {
    if !CanMakeDirs(t, l.root) then Outcome(t, false)
    else
      var o := Modules(MakeDirs(t, l.root), l, |l.modules|);
      if o.ok then Datas(o.tree, l, |l.data|) else o
  }

  /** Removes the first `n` of the named items, stopping at one outside the root. */
  function RemoveItems(t: Tree, items: seq<Option<Path>>, n: nat): Outcome
    requires n <= |items|
  {
    if n == 0 then Outcome(t, true)
    else
      var o := RemoveItems(t, items, n - 1);
      if !o.ok then o
      else if items[n - 1].None? then Outcome(o.tree, false)
      else Outcome(Remove(o.tree, items[n - 1].value), true)
  }

  function Destinations(jobs: seq<Job>): seq<Option<Path>> {
    seq(|jobs|, i requires 0 <= i < |jobs| => jobs[i].dst)
  }

  /** `action_uninstall` */
  function Uninstall(t: Tree, l: Plan): Outcome {
    if l.root !in t then Outcome(t, true)
    else
      var o := RemoveItems(t, Destinations(l.modules), |l.modules|);
      if o.ok then RemoveItems(o.tree, l.clean, |l.clean|) else o
  }

  /** `action_install` */
  function Install(t: Tree, l: Plan): Outcome {
    var o := Uninstall(t, l);
    if o.ok then Update(o.tree, l) else o
  }

  // ---- The actions as the loops they are ----

  class Target {
    var tree: Tree

    constructor (t: Tree)
      ensures tree == t
    {
      tree := t;
    }

    /** `_remove_path`: removing a path that is not there removes nothing. */
    method RemovePath(p: Path)
      modifies this
      ensures tree == Remove(old(tree), p)
    {
      tree := Remove(tree, p);
    }

    /** `_copy_path` with an existing source: parents first, then out with the old, in with the new. */
    method CopyPath(image: Tree, dst: Path) returns (ok: bool)
      modifies this
      ensures Outcome(tree, ok) == Place(old(tree), dst, image)
    {
      if !CanMakeDirs(tree, Parent(dst)) {
        return false;
      }
      tree := MakeDirs(tree, Parent(dst));
      RemovePath(dst);
      tree := tree + image;
      return true;
    }

    method UpdateModule(j: Job) returns (ok: bool)
      modifies this
      ensures Outcome(tree, ok) == InstallModule(old(tree), j)
    {
      if !Ready(j) {
        return false;
      }
      ok := CopyPath(j.image.value, j.dst.value);
    }

    method UpdateData(j: Job) returns (ok: bool)
      modifies this
      ensures Outcome(tree, ok) == InstallData(old(tree), j)
    {
      if !Ready(j) {
        return false;
      }
      if j.dst.value in tree {
        return true;
      }
      ok := CopyPath(j.image.value, j.dst.value);
    }

    method UpdateModules(l: Plan) returns (ok: bool)
      modifies this
      ensures Outcome(tree, ok) == Modules(old(tree), l, |l.modules|)
    {
      ghost var start := tree;
      for n := 0 to |l.modules|
        invariant Modules(start, l, n) == Outcome(tree, true)
      {
        ModulesStep(start, l, n, tree);
        ok := UpdateModule(l.modules[n]);
        if !ok {
          FailedModulesStop(start, l, n + 1);
          return;
        }
      }
      return true;
    }

    method UpdateDatas(l: Plan) returns (ok: bool)
      modifies this
      ensures Outcome(tree, ok) == Datas(old(tree), l, |l.data|)
    {
      ghost var start := tree;
      for n := 0 to |l.data|
        invariant Datas(start, l, n) == Outcome(tree, true)
      {
        DatasStep(start, l, n, tree);
        ok := UpdateData(l.data[n]);
        if !ok {
          FailedDatasStop(start, l, n + 1);
          return;
        }
      }
      return true;
    }

    /** `action_update` */
    method ActionUpdate(l: Plan) returns (ok: bool)
      modifies this
      ensures Outcome(tree, ok) == Update(old(tree), l)
    {
      if !CanMakeDirs(tree, l.root) {
        return false;
      }
      tree := MakeDirs(tree, l.root);
      ok := UpdateModules(l);
      if ok {
        ok := UpdateDatas(l);
      }
    }

    method RemoveAll(items: seq<Option<Path>>) returns (ok: bool)
      modifies this
      ensures Outcome(tree, ok) == RemoveItems(old(tree), items, |items|)
    {
      for n := 0 to |items|
        invariant Outcome(tree, true) == RemoveItems(old(tree), items, n)
      {
        if items[n].None? {
          FailedRemovalStops(old(tree), items, n + 1);
          return false;
        }
        RemovePath(items[n].value);
      }
      return true;
    }

    /** `action_uninstall` */
    method ActionUninstall(l: Plan) returns (ok: bool)
      modifies this
      ensures Outcome(tree, ok) == Uninstall(old(tree), l)
    {
      if l.root !in tree {
        return true;
      }
      ok := RemoveAll(Destinations(l.modules));
      if ok {
        ok := RemoveAll(l.clean);
      }
    }

    /** `action_install` */
    method ActionInstall(l: Plan) returns (ok: bool)
      modifies this
      ensures Outcome(tree, ok) == Install(old(tree), l)
    {
      ok := ActionUninstall(l);
      if ok {
        ok := ActionUpdate(l);
      }
    }
  }

  lemma ModulesStep(t: Tree, l: Plan, n: nat, u: Tree)
    requires n < |l.modules| && Modules(t, l, n) == Outcome(u, true)
    ensures Modules(t, l, n + 1) == InstallModule(u, l.modules[n])
  {
  }

  lemma DatasStep(t: Tree, l: Plan, n: nat, u: Tree)
    requires n < |l.data| && Datas(t, l, n) == Outcome(u, true)
    ensures Datas(t, l, n + 1) == InstallData(u, l.data[n])
  {
  }

  lemma {:induction false} FailedModulesStop(t: Tree, l: Plan, n: nat)
    requires n <= |l.modules| && !Modules(t, l, n).ok
    ensures Modules(t, l, |l.modules|) == Modules(t, l, n)
    decreases |l.modules| - n
  {
    if n < |l.modules| {
      FailedModulesStop(t, l, n + 1);
    }
  }

  lemma {:induction false} FailedDatasStop(t: Tree, l: Plan, n: nat)
    requires n <= |l.data| && !Datas(t, l, n).ok
    ensures Datas(t, l, |l.data|) == Datas(t, l, n)
    decreases |l.data| - n
  {
    if n < |l.data| {
      FailedDatasStop(t, l, n + 1);
    }
  }

  lemma {:induction false} FailedRemovalStops(t: Tree, items: seq<Option<Path>>, n: nat)
    requires n <= |items| && !RemoveItems(t, items, n).ok
    ensures RemoveItems(t, items, |items|) == RemoveItems(t, items, n)
    decreases |items| - n
  {
    if n < |items| {
      FailedRemovalStops(t, items, n + 1);
    }
  }
}
