/**
 What install and update promise about the target tree: nothing outside the
 modules is touched, the last module wins, data is only filled in, and exactly
 when a repeated update, or an install, comes to the same tree.
 */
module UpdateTheorems {
  import opened Text
  import opened FileTree
  import opened TreeUpdate

  /** `p` lies at or under the destination of the job. */
  ghost predicate Governs(j: Job, p: Path) {
    j.dst.Some? && j.dst.value <= p
  }

  /** One of the first `n` modules governs `p`. */
  ghost predicate Governed(l: Plan, n: nat, p: Path) {
    exists i | 0 <= i < n && i < |l.modules| :: Governs(l.modules[i], p)
  }

  /** `p` is a directory that one of the first `n` modules needs. */
  ghost predicate Needed(l: Plan, n: nat, p: Path) {
    exists i | 0 <= i < n && i < |l.modules| :: l.modules[i].dst.Some? && Above(p, l.modules[i].dst.value)
  }

  /** Placing an image: what is at each path afterwards. */
  lemma PlaceAt(t: Tree, dst: Path, image: Tree, q: Path)
    requires Place(t, dst, image).ok && HangsAt(image, dst)
    ensures
      var u := Place(t, dst, image).tree;
      && (dst <= q ==> SameAt(u, image, q))
      && (Above(q, dst) ==> q in u && u[q] == Dir && (q in t ==> t[q] == Dir))
      && (!(dst <= q) && !Above(q, dst) ==> SameAt(u, t, q))
  {
    var made := MakeDirs(t, Parent(dst));
    MakeDirsAt(t, Parent(dst), q);
    GraftAt(made, dst, image, q);
    if dst != [] {
      ParentIsAbove(dst, q);
      AncestorsArePrefixes(Parent(dst), q);
    }
  }

  lemma PlaceWellFormed(t: Tree, dst: Path, image: Tree)
    requires WellFormed(t) && HangsAt(image, dst) && Place(t, dst, image).ok
    ensures WellFormed(Place(t, dst, image).tree)
  {
    var made := MakeDirs(t, Parent(dst));
    MakeDirsWellFormed(t, Parent(dst));
    forall q | Above(q, dst) ensures q in made && made[q].Dir? {
      ParentIsAbove(dst, q);
      MakeDirsAt(t, Parent(dst), q);
      AncestorsArePrefixes(Parent(dst), q);
    }
    GraftWellFormed(made, dst, image);
  }

  /** Whether a placement succeeds: no file above the destination. */
  lemma PlaceSucceeds(t: Tree, dst: Path, image: Tree)
    requires dst != []
    ensures Place(t, dst, image).ok <==> forall q | Above(q, dst) && q in t :: t[q].Dir?
  {
    forall q ensures q in Ancestors(Parent(dst)) <==> Above(q, dst) {
      ParentIsAbove(dst, q);
      AncestorsArePrefixes(Parent(dst), q);
    }
  }

  // ---- The module loop ----

  /** One turn of the module loop: what is at each path afterwards. */
  lemma ModuleAt(t: Tree, l: Plan, n: nat, p: Path)
    requires PlanOk(l) && 0 < n <= |l.modules| && Modules(t, l, n).ok
    ensures
      var j := l.modules[n - 1];
      var u := Modules(t, l, n - 1).tree;
      var v := Modules(t, l, n).tree;
      && Modules(t, l, n - 1).ok && Ready(j)
      && (Governs(j, p) ==> SameAt(v, j.image.value, p))
      && (Above(p, j.dst.value) ==> p in v && v[p] == Dir && (p in u ==> u[p] == Dir))
      && (!Governs(j, p) && !Above(p, j.dst.value) ==> SameAt(v, u, p))
  {
    var j := l.modules[n - 1];
    PlaceAt(Modules(t, l, n - 1).tree, j.dst.value, j.image.value, p);
  }

  lemma ModuleWellFormed(t: Tree, j: Job)
    requires WellFormed(t) && (Ready(j) ==> HangsAt(j.image.value, j.dst.value))
    ensures WellFormed(InstallModule(t, j).tree)
  {
    if InstallModule(t, j).ok {
      PlaceWellFormed(t, j.dst.value, j.image.value);
    }
  }

  lemma {:induction false} ModulesWellFormed(t: Tree, l: Plan, n: nat)
    requires WellFormed(t) && PlanOk(l) && n <= |l.modules|
    ensures WellFormed(Modules(t, l, n).tree)
  {
    hide InstallModule, WellFormed, HangsAt;
    if n > 0 {
      ModulesWellFormed(t, l, n - 1);
      assert JobOk(l.root, l.modules[n - 1]);
      ModuleWellFormed(Modules(t, l, n - 1).tree, l.modules[n - 1]);
    }
  }

  lemma GovernedStep(l: Plan, n: nat, p: Path)
    requires 0 < n <= |l.modules|
    ensures Governed(l, n, p) <==> Governed(l, n - 1, p) || Governs(l.modules[n - 1], p)
  {
  }

  lemma NeededStep(l: Plan, n: nat, p: Path)
    requires 0 < n <= |l.modules|
    ensures Needed(l, n, p) <==>
      Needed(l, n - 1, p) || (l.modules[n - 1].dst.Some? && Above(p, l.modules[n - 1].dst.value))
  {
  }

  /** At `p` the tree `u` is `t`, with directories added for the first `n` modules. */
  ghost predicate OnlyAdds(t: Tree, u: Tree, l: Plan, n: nat, p: Path) {
    && (p in u <==> p in t || Needed(l, n, p))
    && (p in u ==> u[p] == if p in t then t[p] else Dir)
  }

  lemma OnlyAddsStep(t: Tree, u: Tree, v: Tree, l: Plan, n: nat, p: Path)
    requires 0 < n <= |l.modules| && OnlyAdds(t, u, l, n - 1, p) && Ready(l.modules[n - 1])
    requires Above(p, l.modules[n - 1].dst.value) ==> p in v && v[p] == Dir && (p in u ==> u[p] == Dir)
    requires !Above(p, l.modules[n - 1].dst.value) ==> SameAt(v, u, p)
    ensures OnlyAdds(t, v, l, n, p)
  {
    NeededStep(l, n, p);
  }

  /** Outside the modules a finished loop has only added the directories it needs. */
  lemma {:induction false} ModulesOutside(t: Tree, l: Plan, n: nat, p: Path)
    requires PlanOk(l) && n <= |l.modules| && !Governed(l, n, p) && Modules(t, l, n).ok
    ensures OnlyAdds(t, Modules(t, l, n).tree, l, n, p)
  {
    hide Place;
    if n > 0 {
      GovernedStep(l, n, p);
      ModuleAt(t, l, n, p);
      ModulesOutside(t, l, n - 1, p);
      OnlyAddsStep(t, Modules(t, l, n - 1).tree, Modules(t, l, n).tree, l, n, p);
    }
  }

  /** Under the modules the outcome does not depend on the tree it started from. */
  lemma {:induction false} ModulesInside(t: Tree, u: Tree, l: Plan, n: nat, p: Path)
    requires PlanOk(l) && n <= |l.modules| && Governed(l, n, p)
    requires Modules(t, l, n).ok && Modules(u, l, n).ok
    ensures SameAt(Modules(t, l, n).tree, Modules(u, l, n).tree, p)
  {
    hide Place;
    ModuleAt(t, l, n, p);
    ModuleAt(u, l, n, p);
    GovernedStep(l, n, p);
    if !Governs(l.modules[n - 1], p) {
      ModulesInside(t, u, l, n - 1, p);
    }
  }

  /**
   No file blocks the way: no file is the target root, and none stands above a
   module unless an earlier module replaces it first.
   */
  ghost predicate Unblocked(t: Tree, l: Plan, n: nat) {
    forall i, p | 0 <= i < n && i < |l.modules| && l.modules[i].dst.Some? && Above(p, l.modules[i].dst.value)
        && p in t && t[p].File? :: Governed(l, i, p)
  }

  /** Given one successful run, a run from another tree succeeds exactly if nothing blocks it. */
  lemma {:induction false} ModulesSucceed(t: Tree, u: Tree, l: Plan, n: nat)
    requires PlanOk(l) && l.root != [] && n <= |l.modules| && Modules(t, l, n).ok
    ensures Modules(u, l, n).ok <==> Unblocked(u, l, n)
  {
    if n > 0 {
      ModulesSucceed(t, u, l, n - 1);
      if Unblocked(u, l, n) {
        assert Unblocked(u, l, n - 1);
      }
      if Modules(u, l, n - 1).ok {
        ModuleSucceeds(t, u, l, n);
      }
    }
  }

  /** Halfway through two runs, a file stands at `p` in the second only if it did at its start. */
  lemma FilesRemain(t: Tree, u: Tree, l: Plan, n: nat, p: Path)
    requires PlanOk(l) && n <= |l.modules| && Modules(t, l, n).ok && Modules(u, l, n).ok
    requires p in Modules(t, l, n).tree ==> Modules(t, l, n).tree[p].Dir?
    ensures
      var b := Modules(u, l, n).tree;
      (p in b && b[p].File?) <==> (p in u && u[p].File? && !Governed(l, n, p))
  {
    if Governed(l, n, p) {
      ModulesInside(t, u, l, n, p);
    } else {
      ModulesOutside(u, l, n, p);
    }
  }

  /** No file stands above a destination unless one of the first `n` modules replaces it. */
  ghost predicate ClearAbove(u: Tree, l: Plan, n: nat, dst: Path) {
    forall p | Above(p, dst) && p in u && u[p].File? :: Governed(l, n, p)
  }

  lemma UnblockedStep(u: Tree, l: Plan, n: nat)
    requires 0 < n <= |l.modules| && l.modules[n - 1].dst.Some?
    ensures Unblocked(u, l, n) <==> Unblocked(u, l, n - 1) && ClearAbove(u, l, n - 1, l.modules[n - 1].dst.value)
  {
  }

  lemma ModuleOk(u: Tree, l: Plan, n: nat)
    requires 0 < n <= |l.modules| && Modules(u, l, n - 1).ok
    requires Ready(l.modules[n - 1]) && l.modules[n - 1].dst.value != []
    ensures
      var b := Modules(u, l, n - 1).tree;
      Modules(u, l, n).ok <==> forall p | Above(p, l.modules[n - 1].dst.value) && p in b :: b[p].Dir?
  {
    var j := l.modules[n - 1];
    PlaceSucceeds(Modules(u, l, n - 1).tree, j.dst.value, j.image.value);
  }

  lemma SameFilesAbove(t: Tree, u: Tree, l: Plan, n: nat)
    requires PlanOk(l) && 0 < n <= |l.modules| && Ready(l.modules[n - 1])
    requires Modules(t, l, n).ok && Modules(u, l, n - 1).ok
    ensures
      var b := Modules(u, l, n - 1).tree;
      (forall p | Above(p, l.modules[n - 1].dst.value) && p in b :: b[p].Dir?)
        <==> ClearAbove(u, l, n - 1, l.modules[n - 1].dst.value)
  {
    hide Place;
    var dst := l.modules[n - 1].dst.value;
    var b := Modules(u, l, n - 1).tree;
    forall p | Above(p, dst)
      ensures (p in b && b[p].File?) <==> (p in u && u[p].File? && !Governed(l, n - 1, p))
    {
      ModuleAt(t, l, n, p);
      FilesRemain(t, u, l, n - 1, p);
    }
    if forall p | Above(p, dst) && p in b :: b[p].Dir? {
      forall p | Above(p, dst) && p in u && u[p].File? ensures Governed(l, n - 1, p) {
        assert p in b ==> b[p].Dir?;
      }
    }
    if ClearAbove(u, l, n - 1, dst) {
      forall p | Above(p, dst) && p in b ensures b[p].Dir? {
        assert p in u && u[p].File? ==> Governed(l, n - 1, p);
      }
    }
  }

  lemma ModuleSucceeds(t: Tree, u: Tree, l: Plan, n: nat)
    requires PlanOk(l) && l.root != [] && 0 < n <= |l.modules| && Modules(t, l, n).ok
    requires Modules(u, l, n - 1).ok && Unblocked(u, l, n - 1)
    ensures Modules(u, l, n).ok <==> Unblocked(u, l, n)
  {
    ModuleAt(t, l, n, []);
    assert JobOk(l.root, l.modules[n - 1]);
    SameFilesAbove(t, u, l, n);
    ModuleOk(u, l, n);
    UnblockedStep(u, l, n);
  }

  // ---- The data loop ----

  /** Nothing can be below a path that is not there. */
  lemma NothingBelow(t: Tree, p: Path, q: Path)
    requires WellFormed(t) && p !in t && p <= q
    ensures q !in t
  {
    if p != q {
      assert Above(p, q);
    }
  }

  /** Filling in a data path adds, and changes nothing. */
  lemma DataAdds(t: Tree, j: Job, p: Path)
    requires WellFormed(t) && (Ready(j) ==> HangsAt(j.image.value, j.dst.value)) && p in t
    ensures p in InstallData(t, j).tree && InstallData(t, j).tree[p] == t[p]
  {
    if Ready(j) && j.dst.value !in t && InstallData(t, j).ok {
      PlaceAt(t, j.dst.value, j.image.value, p);
      if j.dst.value <= p {
        NothingBelow(t, j.dst.value, p);
      }
    }
  }

  lemma DataWellFormed(t: Tree, j: Job)
    requires WellFormed(t) && (Ready(j) ==> HangsAt(j.image.value, j.dst.value))
    ensures WellFormed(InstallData(t, j).tree)
  {
    if Ready(j) && j.dst.value !in t && InstallData(t, j).ok {
      PlaceWellFormed(t, j.dst.value, j.image.value);
    }
  }

  lemma {:induction false} DatasWellFormed(t: Tree, l: Plan, n: nat)
    requires WellFormed(t) && PlanOk(l) && n <= |l.data|
    ensures WellFormed(Datas(t, l, n).tree)
  {
    hide InstallData, WellFormed, HangsAt;
    if n > 0 {
      DatasWellFormed(t, l, n - 1);
      assert JobOk(l.root, l.data[n - 1]);
      DataWellFormed(Datas(t, l, n - 1).tree, l.data[n - 1]);
    }
  }

  /** The data loop, finished or not, only ever adds. */
  lemma {:induction false} DatasAdd(t: Tree, l: Plan, m: nat, n: nat, p: Path)
    requires WellFormed(t) && PlanOk(l) && m <= n <= |l.data| && p in Datas(t, l, m).tree
    ensures p in Datas(t, l, n).tree && Datas(t, l, n).tree[p] == Datas(t, l, m).tree[p]
  {
    if m < n {
      DatasAdd(t, l, m, n - 1, p);
      DatasWellFormed(t, l, n - 1);
      assert JobOk(l.root, l.data[n - 1]);
      DataAdds(Datas(t, l, n - 1).tree, l.data[n - 1], p);
    }
  }

  ghost predicate InModules(l: Plan, p: Path) {
    Governed(l, |l.modules|, p)
  }

  /** Two data loops in step: equal under the modules, the second already at the first's end elsewhere. */
  ghost predicate InStep(l: Plan, x: Tree, y: Tree, z: Tree) {
    && (forall p | InModules(l, p) :: SameAt(x, y, p))
    && (forall p | !InModules(l, p) :: SameAt(y, z, p))
  }

  ghost predicate Within(x: Tree, z: Tree) {
    forall p {:trigger p in x} | p in x :: p in z && z[p] == x[p]
  }

  /** The directories that modules need are there. */
  ghost predicate HasNeeded(l: Plan, x: Tree) {
    forall p {:trigger Needed(l, |l.modules|, p)} | !InModules(l, p) && Needed(l, |l.modules|, p) :: p in x
  }

  /** A path with a module below it is under a module itself, or a directory some module needs. */
  lemma AboveModule(l: Plan, d: Path, p: Path)
    requires InModules(l, p) && d <= p
    ensures InModules(l, d) || Needed(l, |l.modules|, d)
  {
    var i :| 0 <= i < |l.modules| && Governs(l.modules[i], p);
    PrefixesCompare(l.modules[i].dst.value, d, p);
    if l.modules[i].dst.value <= d {
      assert Governs(l.modules[i], d);
    }
  }

  lemma BelowModule(l: Plan, d: Path, p: Path)
    requires InModules(l, d) && d <= p
    ensures InModules(l, p)
  {
    var i :| 0 <= i < |l.modules| && Governs(l.modules[i], d);
    assert Governs(l.modules[i], p);
  }

  /** Outside the modules the first run fills the path in; the second finds it there. */
  lemma OutsideStep(l: Plan, x: Tree, y: Tree, z: Tree, j: Job)
    requires InStep(l, x, y, z) && HasNeeded(l, x) && Ready(j) && HangsAt(j.image.value, j.dst.value)
    requires j.dst.value !in x && !InModules(l, j.dst.value) && Place(x, j.dst.value, j.image.value).ok
    requires Within(Place(x, j.dst.value, j.image.value).tree, z)
    ensures j.dst.value in y && InStep(l, Place(x, j.dst.value, j.image.value).tree, y, z)
  {
    var d := j.dst.value;
    PlaceAt(x, d, j.image.value, d);
    forall p | InModules(l, p) ensures SameAt(Place(x, d, j.image.value).tree, y, p) {
      PlaceAt(x, d, j.image.value, p);
      if d <= p {
        AboveModule(l, d, p);
      } else if Above(p, d) {
        BelowModule(l, p, d);
      }
    }
  }

  /** Under a module both runs fill the path in alike. */
  lemma InsideStep(l: Plan, x: Tree, y: Tree, z: Tree, j: Job)
    requires InStep(l, x, y, z) && Ready(j) && HangsAt(j.image.value, j.dst.value) && j.dst.value != []
    requires j.dst.value !in x && InModules(l, j.dst.value) && Place(x, j.dst.value, j.image.value).ok
    requires Within(Place(x, j.dst.value, j.image.value).tree, z)
    ensures j.dst.value !in y && Place(y, j.dst.value, j.image.value).ok
    ensures InStep(l, Place(x, j.dst.value, j.image.value).tree, Place(y, j.dst.value, j.image.value).tree, z)
  {
    var d := j.dst.value;
    PlaceSucceeds(y, d, j.image.value);
    forall q | Above(q, d) && q in y ensures y[q].Dir? {
      PlaceAt(x, d, j.image.value, q);
      assert z[q] == Place(x, d, j.image.value).tree[q];
      assert InModules(l, q) || SameAt(y, z, q);
    }
    forall p ensures InModules(l, p) ==> SameAt(Place(x, d, j.image.value).tree, Place(y, d, j.image.value).tree, p) {
      PlaceAt(x, d, j.image.value, p);
      PlaceAt(y, d, j.image.value, p);
    }
    forall p | !InModules(l, p) ensures SameAt(Place(y, d, j.image.value).tree, z, p) {
      PlaceAt(x, d, j.image.value, p);
      PlaceAt(y, d, j.image.value, p);
      if d <= p {
        BelowModule(l, d, p);
      }
    }
  }

  /** One turn of a data loop that ends with `z`. */
  ghost predicate Turn(l: Plan, x: Tree, z: Tree, j: Job) {
    && JobOk(l.root, j) && InstallData(x, j).ok && HasNeeded(l, x)
    && Within(x, z) && Within(InstallData(x, j).tree, z)
  }

  lemma DataInStep(l: Plan, x: Tree, y: Tree, z: Tree, j: Job)
    requires InStep(l, x, y, z) && l.root != [] && Turn(l, x, z, j)
    ensures InstallData(y, j).ok && InStep(l, InstallData(x, j).tree, InstallData(y, j).tree, z)
  {
    var d := j.dst.value;
    if d in x {
      assert SameAt(x, y, d) || SameAt(y, z, d);
    } else if InModules(l, d) {
      InsideStep(l, x, y, z, j);
    } else {
      OutsideStep(l, x, y, z, j);
    }
  }

  lemma DataTurn(l: Plan, x: Tree, z: Tree, n: nat)
    requires PlanOk(l) && WellFormed(x) && n < |l.data| && HasNeeded(l, x)
    requires Datas(x, l, |l.data|) == Outcome(z, true)
    ensures Turn(l, Datas(x, l, n).tree, z, l.data[n])
  {
    assert InstallData(Datas(x, l, n).tree, l.data[n]).ok by {
      DatasNext(x, l, n);
    }
    assert HasNeeded(l, Datas(x, l, n).tree) by {
      StillNeeded(l, x, n);
    }
    assert Within(Datas(x, l, n).tree, z) by {
      DatasWithin(x, l, n);
    }
    assert Within(InstallData(Datas(x, l, n).tree, l.data[n]).tree, z) by {
      DatasNext(x, l, n);
      DatasWithin(x, l, n + 1);
    }
  }

  lemma {:induction false} DatasInStep(l: Plan, x: Tree, y: Tree, z: Tree, n: nat)
    requires PlanOk(l) && l.root != [] && WellFormed(x) && n <= |l.data| && HasNeeded(l, x)
    requires Datas(x, l, |l.data|) == Outcome(z, true) && InStep(l, x, y, z)
    ensures Datas(y, l, n).ok && InStep(l, Datas(x, l, n).tree, Datas(y, l, n).tree, z)
  {
    hide Place;
    if n > 0 {
      DatasInStep(l, x, y, z, n - 1);
      DataTurn(l, x, z, n - 1);
      DataInStep(l, Datas(x, l, n - 1).tree, Datas(y, l, n - 1).tree, z, l.data[n - 1]);
      DatasNext(x, l, n - 1);
      DatasStep(y, l, n - 1, Datas(y, l, n - 1).tree);
    }
  }

  lemma StillNeeded(l: Plan, x: Tree, n: nat)
    requires PlanOk(l) && WellFormed(x) && n <= |l.data| && HasNeeded(l, x)
    ensures HasNeeded(l, Datas(x, l, n).tree)
  {
    forall p | p in x ensures p in Datas(x, l, n).tree {
      DatasAdd(x, l, 0, n, p);
    }
  }

  lemma DatasWithin(x: Tree, l: Plan, n: nat)
    requires PlanOk(l) && WellFormed(x) && n <= |l.data|
    ensures Within(Datas(x, l, n).tree, Datas(x, l, |l.data|).tree)
  {
    forall p | p in Datas(x, l, n).tree
      ensures p in Datas(x, l, |l.data|).tree && Datas(x, l, |l.data|).tree[p] == Datas(x, l, n).tree[p]
    {
      DatasAdd(x, l, n, |l.data|, p);
    }
  }

  lemma DatasNext(x: Tree, l: Plan, n: nat)
    requires n < |l.data| && Datas(x, l, |l.data|).ok
    ensures Datas(x, l, n).ok && Datas(x, l, n + 1).ok
    ensures Datas(x, l, n + 1) == InstallData(Datas(x, l, n).tree, l.data[n])
  {
    if !Datas(x, l, n).ok {
      FailedDatasStop(x, l, n);
    } else if !Datas(x, l, n + 1).ok {
      FailedDatasStop(x, l, n + 1);
    }
  }

  // ---- A repeated update ----

  lemma RootPlaced(root: Path, j: Job, u: Tree, v: Tree)
    requires JobOk(root, j) && Ready(j) && root in u
    requires Governs(j, root) ==> SameAt(v, j.image.value, root)
    requires Above(root, j.dst.value) ==> root in v
    requires !Governs(j, root) && !Above(root, j.dst.value) ==> SameAt(v, u, root)
    ensures root in v
  {
    if Governs(j, root) {
      assert j.dst.value == root;
    }
  }

  /** The target root stays in the tree through the module loop. */
  lemma {:induction false} RootStays(t: Tree, l: Plan, n: nat)
    requires PlanOk(l) && n <= |l.modules| && l.root in t && Modules(t, l, n).ok
    ensures l.root in Modules(t, l, n).tree
  {
    hide Place;
    if n > 0 {
      var j := l.modules[n - 1];
      ModuleAt(t, l, n, l.root);
      RootStays(t, l, n - 1);
      RootPlaced(l.root, j, Modules(t, l, n - 1).tree, Modules(t, l, n).tree);
    }
  }

  /** Nothing above the target root is under a module. */
  lemma AboveRootIsOutside(l: Plan, p: Path)
    requires PlanOk(l) && Above(p, l.root)
    ensures !InModules(l, p)
  {
    forall i | 0 <= i < |l.modules| ensures !Governs(l.modules[i], p) {
      assert JobOk(l.root, l.modules[i]);
    }
  }

  /** The three trees of one successful update: after the root, after the modules, after the data. */
  lemma UpdateShape(t: Tree, l: Plan)
    requires WellFormed(t) && PlanOk(l) && Update(t, l).ok
    ensures
      var x0 := MakeDirs(t, l.root);
      var x := Modules(x0, l, |l.modules|);
      && CanMakeDirs(t, l.root) && WellFormed(x0)
      && x.ok && WellFormed(x.tree) && HasNeeded(l, x.tree)
      && Datas(x.tree, l, |l.data|) == Update(t, l)
      && WellFormed(Update(t, l).tree) && l.root in Update(t, l).tree
  {
    var x0 := MakeDirs(t, l.root);
    var x := Modules(x0, l, |l.modules|).tree;
    MakeDirsWellFormed(t, l.root);
    ModulesWellFormed(x0, l, |l.modules|);
    DatasWellFormed(x, l, |l.data|);
    MakeDirsAt(t, l.root, l.root);
    RootStays(x0, l, |l.modules|);
    DatasAdd(x, l, 0, |l.data|, l.root);
    forall p | !InModules(l, p) && Needed(l, |l.modules|, p) ensures p in x {
      ModulesOutside(x0, l, |l.modules|, p);
    }
  }

  /** When the root is a directory, making it again changes nothing. */
  lemma RootMadeAlready(z: Tree, root: Path)
    requires WellFormed(z) && root in z
    ensures CanMakeDirs(z, root) <==> z[root].Dir?
    ensures MakeDirs(z, root) == z
  {
    forall q | q <= root ensures q in z && (q != root ==> z[q].Dir?) {
      if q != root {
        assert Above(q, root);
      }
    }
    forall q ensures q in MakeDirs(z, root) <==> q in z {
      MakeDirsAt(z, root, q);
    }
  }

  lemma SameEverywhere(z: Tree, w: Tree)
    requires forall p :: SameAt(z, w, p)
    ensures w == z
  {
    forall p ensures p in z <==> p in w {
      assert SameAt(z, w, p);
    }
    forall p | p in w ensures w[p] == z[p] {
      assert SameAt(z, w, p);
    }
  }

  lemma InStepMeets(l: Plan, z: Tree, w: Tree)
    requires InStep(l, z, w, z)
    ensures w == z
  {
    forall p ensures SameAt(z, w, p) {
      assert InModules(l, p) || !InModules(l, p);
    }
    SameEverywhere(z, w);
  }

  /** After a successful update, a module loop that succeeds again puts the two data loops in step. */
  lemma ModulesInStep(t: Tree, l: Plan)
    requires WellFormed(t) && PlanOk(l) && Update(t, l).ok
    requires Modules(Update(t, l).tree, l, |l.modules|).ok
    ensures
      var x := Modules(MakeDirs(t, l.root), l, |l.modules|).tree;
      var z := Update(t, l).tree;
      InStep(l, x, Modules(z, l, |l.modules|).tree, z)
  {
    UpdateShape(t, l);
    var x0 := MakeDirs(t, l.root);
    var x := Modules(x0, l, |l.modules|).tree;
    var z := Update(t, l).tree;
    var y := Modules(z, l, |l.modules|).tree;
    forall p | InModules(l, p) ensures SameAt(x, y, p) {
      ModulesInside(x0, z, l, |l.modules|, p);
    }
    forall p | !InModules(l, p) ensures SameAt(y, z, p) {
      ModulesOutside(z, l, |l.modules|, p);
      if Needed(l, |l.modules|, p) {
        DatasAdd(x, l, 0, |l.data|, p);
      }
    }
  }

  /** What an update needs of a tree: a directory, if anything, at the root, and no file in a module's way. */
  ghost predicate Passable(t: Tree, l: Plan) {
    (l.root in t ==> t[l.root].Dir?) && Unblocked(t, l, |l.modules|)
  }

  /**
   A successful update followed by another comes to the same tree exactly when the
   tree is passable; otherwise the second update fails.
   */
  lemma UpdateRepeats(t: Tree, l: Plan)
    requires WellFormed(t) && PlanOk(l) && l.root != [] && Update(t, l).ok
    ensures
      var z := Update(t, l).tree;
      && (Update(z, l) == Outcome(z, true) <==> Passable(z, l))
      && (Update(z, l).ok <==> Passable(z, l))
  {
    UpdateShape(t, l);
    var z := Update(t, l).tree;
    RootMadeAlready(z, l.root);
    var x0 := MakeDirs(t, l.root);
    var x := Modules(x0, l, |l.modules|).tree;
    ModulesSucceed(x0, z, l, |l.modules|);
    if Passable(z, l) {
      ModulesInStep(t, l);
      var y := Modules(z, l, |l.modules|).tree;
      DatasInStep(l, x, y, z, |l.data|);
      InStepMeets(l, z, Datas(y, l, |l.data|).tree);
    }
  }

  // ---- What an update leaves alone, and what it puts in place ----

  lemma ModuleKeeps(t: Tree, j: Job, p: Path)
    requires (Ready(j) ==> HangsAt(j.image.value, j.dst.value)) && p in t && !Governs(j, p)
    ensures p in InstallModule(t, j).tree && InstallModule(t, j).tree[p] == t[p]
  {
    if InstallModule(t, j).ok {
      PlaceAt(t, j.dst.value, j.image.value, p);
    }
  }

  /** The module loop, finished or not, keeps every path that is not under a module. */
  lemma {:induction false} ModulesKeep(t: Tree, l: Plan, n: nat, p: Path)
    requires PlanOk(l) && n <= |l.modules| && p in t && !Governed(l, n, p)
    ensures p in Modules(t, l, n).tree && Modules(t, l, n).tree[p] == t[p]
  {
    hide InstallModule;
    if n > 0 {
      GovernedStep(l, n, p);
      ModulesKeep(t, l, n - 1, p);
      assert JobOk(l.root, l.modules[n - 1]);
      ModuleKeeps(Modules(t, l, n - 1).tree, l.modules[n - 1], p);
    }
  }

  /** An update, successful or not, changes no path there was unless a module governs it. */
  lemma UpdateFrame(t: Tree, l: Plan, p: Path)
    requires WellFormed(t) && PlanOk(l) && p in t && !InModules(l, p)
    ensures p in Update(t, l).tree && Update(t, l).tree[p] == t[p]
  {
    if CanMakeDirs(t, l.root) {
      var x := MakeDirs(t, l.root);
      MakeDirsAt(t, l.root, p);
      MakeDirsWellFormed(t, l.root);
      ModulesKeep(x, l, |l.modules|, p);
      ModulesWellFormed(x, l, |l.modules|);
      if Modules(x, l, |l.modules|).ok {
        DatasAdd(Modules(x, l, |l.modules|).tree, l, 0, |l.data|, p);
      }
    }
  }

  /** From the `i`th module on, no other governs `p`. */
  ghost predicate LastAt(l: Plan, i: nat, p: Path) {
    && i < |l.modules| && Governs(l.modules[i], p)
    && (forall k | i < k < |l.modules| :: !Governs(l.modules[k], p))
  }

  /** At `p` the tree holds what the image holds, or a directory that a module needs. */
  ghost predicate Shows(v: Tree, image: Tree, l: Plan, n: nat, p: Path) {
    && (p in image ==> p in v && v[p] == image[p])
    && (p !in image && p in v ==> v[p] == Dir && Needed(l, n, p))
  }

  lemma ShowsStep(u: Tree, v: Tree, image: Tree, l: Plan, n: nat, p: Path)
    requires 0 < n <= |l.modules| && Shows(u, image, l, n - 1, p) && Ready(l.modules[n - 1])
    requires Above(p, l.modules[n - 1].dst.value) ==> p in v && v[p] == Dir && (p in u ==> u[p] == Dir)
    requires !Above(p, l.modules[n - 1].dst.value) ==> SameAt(v, u, p)
    ensures Shows(v, image, l, n, p)
  {
    NeededStep(l, n, p);
  }

  lemma LastTurn(t: Tree, l: Plan, n: nat, p: Path)
    requires PlanOk(l) && 0 < n <= |l.modules| && Governs(l.modules[n - 1], p) && Modules(t, l, n).ok
    ensures Ready(l.modules[n - 1]) && Shows(Modules(t, l, n).tree, l.modules[n - 1].image.value, l, n, p)
  {
    ModuleAt(t, l, n, p);
  }

  lemma LaterTurn(t: Tree, l: Plan, image: Tree, n: nat, p: Path)
    requires PlanOk(l) && 0 < n <= |l.modules| && !Governs(l.modules[n - 1], p) && Modules(t, l, n).ok
    requires Shows(Modules(t, l, n - 1).tree, image, l, n - 1, p)
    ensures Shows(Modules(t, l, n).tree, image, l, n, p)
  {
    ModuleAt(t, l, n, p);
    ShowsStep(Modules(t, l, n - 1).tree, Modules(t, l, n).tree, image, l, n, p);
  }

  lemma {:induction false} LastPlaced(t: Tree, l: Plan, i: nat, n: nat, p: Path)
    requires PlanOk(l) && LastAt(l, i, p) && i < n <= |l.modules| && Modules(t, l, n).ok
    ensures Ready(l.modules[i]) && Shows(Modules(t, l, n).tree, l.modules[i].image.value, l, n, p)
  {
    hide Place;
    if i == n - 1 {
      LastTurn(t, l, n, p);
    } else {
      LastPlaced(t, l, i, n - 1, p);
      LaterTurn(t, l, l.modules[i].image.value, n, p);
    }
  }

  /** Where modules overlap, the last one wins: what it holds at `p` is what the update leaves there. */
  lemma LastModuleWins(t: Tree, l: Plan, i: nat, p: Path)
    requires WellFormed(t) && PlanOk(l) && LastAt(l, i, p) && Update(t, l).ok
    ensures
      var z := Update(t, l).tree;
      && Ready(l.modules[i])
      && (p in l.modules[i].image.value ==> p in z && z[p] == l.modules[i].image.value[p])
  {
    UpdateShape(t, l);
    var x := MakeDirs(t, l.root);
    LastPlaced(x, l, i, |l.modules|, p);
    if p in l.modules[i].image.value {
      DatasAdd(Modules(x, l, |l.modules|).tree, l, 0, |l.data|, p);
    }
  }

  lemma DataPlaced(t: Tree, j: Job)
    requires InstallData(t, j).ok && (Ready(j) ==> HangsAt(j.image.value, j.dst.value))
    ensures Ready(j) && j.dst.value in InstallData(t, j).tree
    ensures j.dst.value !in t ==> forall q | j.dst.value <= q :: SameAt(InstallData(t, j).tree, j.image.value, q)
  {
    if j.dst.value !in t {
      forall q | j.dst.value <= q ensures SameAt(InstallData(t, j).tree, j.image.value, q) {
        PlaceAt(t, j.dst.value, j.image.value, q);
      }
      PlaceAt(t, j.dst.value, j.image.value, j.dst.value);
    }
  }

  lemma DataIn(x: Tree, l: Plan, i: nat)
    requires PlanOk(l) && i < |l.data| && Datas(x, l, |l.data|).ok
    ensures Ready(l.data[i]) && l.data[i].dst.value in Datas(x, l, i + 1).tree
  {
    DatasNext(x, l, i);
    assert JobOk(l.root, l.data[i]);
    DataPlaced(Datas(x, l, i).tree, l.data[i]);
  }

  lemma DataStays(x: Tree, l: Plan, i: nat)
    requires WellFormed(x) && PlanOk(l) && i < |l.data| && Datas(x, l, |l.data|).ok
    ensures Ready(l.data[i]) && l.data[i].dst.value in Datas(x, l, |l.data|).tree
  {
    hide Place;
    DataIn(x, l, i);
    DatasAdd(x, l, i + 1, |l.data|, l.data[i].dst.value);
  }

  /** After a successful update every data path is there. */
  lemma DataPresent(t: Tree, l: Plan, i: nat)
    requires WellFormed(t) && PlanOk(l) && i < |l.data| && Update(t, l).ok
    ensures Ready(l.data[i]) && l.data[i].dst.value in Update(t, l).tree
  {
    UpdateShape(t, l);
    DataStays(Modules(MakeDirs(t, l.root), l, |l.modules|).tree, l, i);
  }

  // ---- Uninstall, and install as an update of a cleaned tree ----

  /** One of the first `n` items names `p` or a directory above it. */
  ghost predicate Listed(items: seq<Option<Path>>, n: nat, p: Path) {
    exists i | 0 <= i < n && i < |items| :: items[i].Some? && items[i].value <= p
  }

  lemma ListedStep(items: seq<Option<Path>>, n: nat, p: Path)
    requires 0 < n <= |items|
    ensures Listed(items, n, p) <==> Listed(items, n - 1, p) || (items[n - 1].Some? && items[n - 1].value <= p)
  {
  }

  lemma RemoveAt(t: Tree, d: Path, p: Path)
    ensures p in Remove(t, d) <==> p in t && !(d <= p)
    ensures p in Remove(t, d) ==> Remove(t, d)[p] == t[p]
  {
  }

  /** A finished removal takes exactly the listed paths and what is below them. */
  lemma {:induction false} RemovedExactly(t: Tree, items: seq<Option<Path>>, n: nat, p: Path)
    requires n <= |items| && RemoveItems(t, items, n).ok
    ensures p in RemoveItems(t, items, n).tree <==> p in t && !Listed(items, n, p)
    ensures p in RemoveItems(t, items, n).tree ==> RemoveItems(t, items, n).tree[p] == t[p]
  {
    if n > 0 {
      RemovedExactly(t, items, n - 1, p);
      ListedStep(items, n, p);
      RemoveAt(RemoveItems(t, items, n - 1).tree, items[n - 1].value, p);
    }
  }

  /** A removal, finished or not, keeps every path that is not listed, and adds none. */
  lemma {:induction false} RemovalKeeps(t: Tree, items: seq<Option<Path>>, n: nat, p: Path)
    requires n <= |items|
    ensures p in RemoveItems(t, items, n).tree ==> p in t && RemoveItems(t, items, n).tree[p] == t[p]
    ensures p in t && !Listed(items, n, p) ==> p in RemoveItems(t, items, n).tree
  {
    if n > 0 {
      RemovalKeeps(t, items, n - 1, p);
      ListedStep(items, n, p);
      if items[n - 1].Some? {
        RemoveAt(RemoveItems(t, items, n - 1).tree, items[n - 1].value, p);
      }
    }
  }

  lemma DestinationsListed(l: Plan, p: Path)
    ensures Listed(Destinations(l.modules), |l.modules|, p) <==> InModules(l, p)
  {
    var d := Destinations(l.modules);
    if Listed(d, |d|, p) {
      var i :| 0 <= i < |d| && d[i].Some? && d[i].value <= p;
      assert Governs(l.modules[i], p);
    }
    if InModules(l, p) {
      var i :| 0 <= i < |l.modules| && Governs(l.modules[i], p);
      assert d[i].Some? && d[i].value <= p;
    }
  }

  ghost predicate InClean(l: Plan, p: Path) {
    Listed(l.clean, |l.clean|, p)
  }

  /** A successful uninstall removes exactly the module and clean paths; data stays. */
  lemma UninstallExactly(t: Tree, l: Plan, p: Path)
    requires l.root in t && Uninstall(t, l).ok
    ensures p in Uninstall(t, l).tree <==> p in t && !InModules(l, p) && !InClean(l, p)
    ensures p in Uninstall(t, l).tree ==> Uninstall(t, l).tree[p] == t[p]
  {
    var d := Destinations(l.modules);
    DestinationsListed(l, p);
    RemovedExactly(t, d, |d|, p);
    RemovedExactly(RemoveItems(t, d, |d|).tree, l.clean, |l.clean|, p);
  }

  /** An uninstall, successful or not, touches nothing but module and clean paths. */
  lemma UninstallFrame(t: Tree, l: Plan, p: Path)
    requires !InModules(l, p) && !InClean(l, p)
    ensures SameAt(Uninstall(t, l).tree, t, p)
  {
    var d := Destinations(l.modules);
    DestinationsListed(l, p);
    if l.root in t {
      RemovalKeeps(t, d, |d|, p);
      RemovalKeeps(RemoveItems(t, d, |d|).tree, l.clean, |l.clean|, p);
    }
  }

  /** The tree without its clean paths. */
  ghost function Cleaned(t: Tree, l: Plan): Tree {
    map p | p in t && !InClean(l, p) :: t[p]
  }

  lemma NothingUnderRoot(t: Tree, l: Plan, p: Path)
    requires WellFormed(t) && PlanOk(l) && l.root !in t && p in t
    ensures !InModules(l, p) && !InClean(l, p)
  {
    assert !(l.root <= p) by {
      if l.root <= p {
        NothingBelow(t, l.root, p);
      }
    }
    forall i | 0 <= i < |l.modules| ensures !Governs(l.modules[i], p) {
      assert JobOk(l.root, l.modules[i]);
    }
  }

  /** Away from the modules, uninstalling and cleaning leave the same. */
  lemma UninstallCleans(t: Tree, l: Plan, p: Path)
    requires WellFormed(t) && PlanOk(l) && Uninstall(t, l).ok && !InModules(l, p)
    ensures SameAt(Uninstall(t, l).tree, Cleaned(t, l), p)
  {
    if l.root in t {
      UninstallExactly(t, l, p);
    } else if p in t {
      NothingUnderRoot(t, l, p);
    }
  }

  lemma ListedBelow(items: seq<Option<Path>>, n: nat, p: Path, q: Path)
    requires Listed(items, n, p) && p <= q
    ensures Listed(items, n, q)
  {
    var i :| 0 <= i < n && i < |items| && items[i].Some? && items[i].value <= p;
    assert items[i].value <= q;
  }

  lemma UninstallWellFormed(t: Tree, l: Plan)
    requires WellFormed(t) && Uninstall(t, l).ok
    ensures WellFormed(Uninstall(t, l).tree)
  {
    if l.root in t {
      var u := Uninstall(t, l).tree;
      forall p, q | q in u && Above(p, q) ensures p in u && u[p].Dir? {
        UninstallExactly(t, l, p);
        UninstallExactly(t, l, q);
        if InModules(l, p) {
          BelowModule(l, p, q);
        } else if InClean(l, p) {
          ListedBelow(l.clean, |l.clean|, p, q);
        }
      }
    }
  }

  /** An install, successful or not, changes no path there was unless it is under a module or clean path. */
  lemma InstallFrame(t: Tree, l: Plan, p: Path)
    requires WellFormed(t) && PlanOk(l) && p in t && !InModules(l, p) && !InClean(l, p)
    ensures p in Install(t, l).tree && Install(t, l).tree[p] == t[p]
  {
    UninstallFrame(t, l, p);
    if Uninstall(t, l).ok {
      UninstallWellFormed(t, l);
      UpdateFrame(Uninstall(t, l).tree, l, p);
    }
  }

  /** The root can be made in one of two trees that agree above it, if in the other no file is at the root. */
  lemma RootMakeable(u: Tree, c: Tree, l: Plan)
    requires PlanOk(l) && CanMakeDirs(u, l.root)
    requires forall p | !InModules(l, p) :: SameAt(u, c, p)
    ensures CanMakeDirs(c, l.root) <==> (l.root in c ==> c[l.root].Dir?)
  {
    forall q | q in c && q <= l.root && q != l.root ensures c[q].Dir? {
      AboveRootIsOutside(l, q);
      assert SameAt(u, c, q);
    }
  }

  /** Making the root puts no file anywhere. */
  lemma RootUnblocks(c: Tree, l: Plan)
    ensures Unblocked(MakeDirs(c, l.root), l, |l.modules|) <==> Unblocked(c, l, |l.modules|)
  {
    forall p ensures var m := MakeDirs(c, l.root); (p in m && m[p].File?) <==> (p in c && c[p].File?) {
      MakeDirsAt(c, l.root, p);
    }
  }

  /** Two trees that differ only under the modules come out of the module loop equal. */
  lemma ModulesMeet(u: Tree, c: Tree, l: Plan)
    requires PlanOk(l) && Modules(u, l, |l.modules|).ok && Modules(c, l, |l.modules|).ok
    requires forall p | !InModules(l, p) :: SameAt(u, c, p)
    ensures Modules(u, l, |l.modules|) == Modules(c, l, |l.modules|)
  {
    var a, b := Modules(u, l, |l.modules|).tree, Modules(c, l, |l.modules|).tree;
    forall p ensures SameAt(a, b, p) {
      if InModules(l, p) {
        ModulesInside(u, c, l, |l.modules|, p);
      } else {
        ModulesOutside(u, l, |l.modules|, p);
        ModulesOutside(c, l, |l.modules|, p);
        assert SameAt(u, c, p);
      }
    }
    SameEverywhere(a, b);
  }

  /** An update that succeeds needed a passable tree. */
  lemma SuccessIsPassable(c: Tree, l: Plan)
    requires PlanOk(l) && l.root != [] && Update(c, l).ok
    ensures Passable(c, l)
  {
    var y := MakeDirs(c, l.root);
    ModulesSucceed(y, y, l, |l.modules|);
    RootUnblocks(c, l);
  }

  lemma SameAboveRoot(u: Tree, c: Tree, l: Plan)
    requires PlanOk(l) && forall p | !InModules(l, p) :: SameAt(u, c, p)
    ensures forall p | !InModules(l, p) :: SameAt(MakeDirs(u, l.root), MakeDirs(c, l.root), p)
  {
    forall p | !InModules(l, p) ensures SameAt(MakeDirs(u, l.root), MakeDirs(c, l.root), p) {
      MakeDirsAt(u, l.root, p);
      MakeDirsAt(c, l.root, p);
      assert SameAt(u, c, p);
    }
  }

  /** Of two trees that differ only under the modules, one updates and the other is passable: both end alike. */
  lemma UpdatesMeet(u: Tree, c: Tree, l: Plan)
    requires PlanOk(l) && l.root != [] && Update(u, l).ok && Passable(c, l)
    requires forall p | !InModules(l, p) :: SameAt(u, c, p)
    ensures Update(c, l) == Update(u, l)
  {
    RootMakeable(u, c, l);
    RootUnblocks(c, l);
    var x, y := MakeDirs(u, l.root), MakeDirs(c, l.root);
    ModulesSucceed(x, y, l, |l.modules|);
    SameAboveRoot(u, c, l);
    ModulesMeet(x, y, l);
  }

  /** A tree without its modules is passable if it agrees outside them with one that updates. */
  lemma EmptiedIsPassable(u: Tree, c: Tree, l: Plan)
    requires PlanOk(l) && l.root != [] && Update(c, l).ok
    requires forall p | !InModules(l, p) :: SameAt(c, u, p)
    requires forall p | InModules(l, p) :: p !in u
    ensures Passable(u, l)
  {
    SuccessIsPassable(c, l);
    assert SameAt(c, u, l.root) || l.root !in u;
    forall i, p | 0 <= i < |l.modules| && l.modules[i].dst.Some? && Above(p, l.modules[i].dst.value)
      && p in u && u[p].File?
      ensures Governed(l, i, p)
    {
      assert SameAt(c, u, p);
    }
  }

  /** Uninstalling is not refused: there is no target root yet, or every named path lies inside it. */
  ghost predicate Removable(t: Tree, l: Plan) {
    || l.root !in t
    || ((forall i | 0 <= i < |l.modules| :: l.modules[i].dst.Some?)
        && (forall i | 0 <= i < |l.clean| :: l.clean[i].Some?))
  }

  lemma {:induction false} RemovalSucceeds(t: Tree, items: seq<Option<Path>>, n: nat)
    requires n <= |items|
    ensures RemoveItems(t, items, n).ok <==> forall i | 0 <= i < n :: items[i].Some?
  {
    if n > 0 {
      RemovalSucceeds(t, items, n - 1);
    }
  }

  lemma UninstallSucceeds(t: Tree, l: Plan)
    ensures Uninstall(t, l).ok <==> Removable(t, l)
  {
    var d := Destinations(l.modules);
    RemovalSucceeds(t, d, |d|);
    RemovalSucceeds(RemoveItems(t, d, |d|).tree, l.clean, |l.clean|);
    assert forall i | 0 <= i < |d| :: d[i] == l.modules[i].dst;
  }

  lemma UninstallEmpties(t: Tree, l: Plan, p: Path)
    requires WellFormed(t) && PlanOk(l) && Uninstall(t, l).ok && InModules(l, p)
    ensures p !in Uninstall(t, l).tree
  {
    if l.root in t {
      UninstallExactly(t, l, p);
    } else if p in t {
      NothingUnderRoot(t, l, p);
    }
  }

  /** Where uninstalling is possible and the cleaned tree updates, installing comes to the same. */
  lemma CleanUpdateIsInstall(t: Tree, l: Plan)
    requires WellFormed(t) && PlanOk(l) && l.root != [] && Uninstall(t, l).ok && Update(Cleaned(t, l), l).ok
    ensures Install(t, l) == Update(Cleaned(t, l), l)
  {
    var u, c := Uninstall(t, l).tree, Cleaned(t, l);
    hide Cleaned;
    forall p | !InModules(l, p) ensures SameAt(c, u, p) {
      UninstallCleans(t, l, p);
    }
    forall p | InModules(l, p) ensures p !in u {
      UninstallEmpties(t, l, p);
    }
    EmptiedIsPassable(u, c, l);
    UpdatesMeet(c, u, l);
  }

  lemma InstallIsPassableUpdate(t: Tree, l: Plan)
    requires WellFormed(t) && PlanOk(l) && l.root != [] && Install(t, l).ok && Passable(Cleaned(t, l), l)
    ensures Install(t, l) == Update(Cleaned(t, l), l)
  {
    var u, c := Uninstall(t, l).tree, Cleaned(t, l);
    hide Cleaned;
    forall p | !InModules(l, p) ensures SameAt(u, c, p) {
      UninstallCleans(t, l, p);
    }
    UpdatesMeet(u, c, l);
  }

  /**
   Installing against updating the tree without its clean paths. An install that
   succeeds is that update exactly when the cleaned tree is passable: install
   removes every module path before the first copy, so a file in the way of a later
   module stops only the update. An update of the cleaned tree that succeeds is the
   install exactly when nothing named for removal lies outside the root. And the two
   conditions are all there is between the two succeeding.
   */
  lemma InstallIsCleanUpdate(t: Tree, l: Plan)
    requires WellFormed(t) && PlanOk(l) && l.root != []
    ensures
      var c := Cleaned(t, l);
      && (Install(t, l).ok ==> (Update(c, l) == Install(t, l) <==> Passable(c, l)))
      && (Update(c, l).ok ==> (Update(c, l) == Install(t, l) <==> Removable(t, l)))
      && (Install(t, l).ok && Passable(c, l) <==> Update(c, l).ok && Removable(t, l))
  {
    var c := Cleaned(t, l);
    UninstallSucceeds(t, l);
    hide Cleaned, Update, Passable, Removable, Uninstall;
    if Update(c, l).ok {
      SuccessIsPassable(c, l);
      if Removable(t, l) {
        CleanUpdateIsInstall(t, l);
      }
    }
    if Install(t, l).ok && Passable(c, l) {
      InstallIsPassableUpdate(t, l);
    }
  }

  // ---- A layout for which neither law holds ----

  /** The file `a/b` first, then the file `a` in place of its directory. */
  function Crossed(): Plan {
    Plan(["r"],
         [Job(Some(["r", "a", "b"]), Some(map[["r", "a", "b"] := File("1")])),
          Job(Some(["r", "a"]), Some(map[["r", "a"] := File("2")]))],
         [], [])
  }

  function EmptyRoot(): Tree {
    map[[] := Dir, ["r"] := Dir]
  }

  lemma CrossedOk()
    ensures PlanOk(Crossed()) && WellFormed(EmptyRoot()) && MakeDirs(EmptyRoot(), ["r"]) == EmptyRoot()
  {
    var l := Crossed();
    assert HangsAt(l.modules[0].image.value, ["r", "a", "b"]);
    assert HangsAt(l.modules[1].image.value, ["r", "a"]);
    RootMadeAlready(EmptyRoot(), ["r"]);
  }

  lemma CrossedModules()
    ensures Modules(EmptyRoot(), Crossed(), 2).ok
  {
    CrossedOk();
    var t, l := EmptyRoot(), Crossed();
    ModuleOk(t, l, 1);
    assert Modules(t, l, 1).ok;
    forall p | Above(p, ["r", "a"]) && p in Modules(t, l, 1).tree ensures Modules(t, l, 1).tree[p].Dir? {
      ModuleAt(t, l, 1, p);
      assert Above(p, ["r", "a", "b"]);
    }
    ModuleOk(t, l, 2);
  }

  /** The first update of the empty root succeeds and leaves a file above the first module. */
  lemma CrossedUpdate()
    ensures Update(EmptyRoot(), Crossed()).ok && !Passable(Update(EmptyRoot(), Crossed()).tree, Crossed())
  {
    var t, l := EmptyRoot(), Crossed();
    CrossedOk();
    CrossedModules();
    var z := Update(t, l).tree;
    assert LastAt(l, 1, ["r", "a"]);
    LastModuleWins(t, l, 1, ["r", "a"]);
    assert Above(["r", "a"], l.modules[0].dst.value) && z[["r", "a"]].File? && !Governed(l, 0, ["r", "a"]);
  }

  lemma CrossedTwice()
    ensures Update(EmptyRoot(), Crossed()).ok && !Update(Update(EmptyRoot(), Crossed()).tree, Crossed()).ok
  {
    CrossedOk();
    CrossedUpdate();
    UpdateRepeats(EmptyRoot(), Crossed());
  }

  function FileInTheWay(): Tree {
    map[[] := Dir, ["r"] := Dir, ["r", "a"] := File("2")]
  }

  lemma FileIsInTheWay()
    ensures WellFormed(FileInTheWay()) && !Passable(FileInTheWay(), Crossed())
  {
    var c, l := FileInTheWay(), Crossed();
    forall p, q | q in c && Above(p, q) ensures p in c && c[p].Dir? {
      assert p == q[..|p|];
      assert q == ["r", "a"] ==> |p| == 0 || p == ["r"];
    }
    assert Above(["r", "a"], l.modules[0].dst.value) && c[["r", "a"]].File? && !Governed(l, 0, ["r", "a"]);
  }

  lemma CrossedUninstall()
    ensures Uninstall(FileInTheWay(), Crossed()) == Outcome(EmptyRoot(), true)
  {
    var c, l := FileInTheWay(), Crossed();
    var d := Destinations(l.modules);
    assert RemoveItems(c, d, 1) == Outcome(c, true) by {
      assert Remove(c, ["r", "a", "b"]) == c;
    }
    assert RemoveItems(c, d, 2) == Outcome(EmptyRoot(), true) by {
      assert Remove(c, ["r", "a"]) == EmptyRoot();
    }
  }

  /** Installing over a file in the way succeeds; updating the same tree, with nothing to clean, fails. */
  lemma InstallIsNotUpdate()
    ensures Install(FileInTheWay(), Crossed()).ok
    ensures Update(Cleaned(FileInTheWay(), Crossed()), Crossed()) != Install(FileInTheWay(), Crossed())
  {
    var c, l := FileInTheWay(), Crossed();
    CrossedOk();
    CrossedUpdate();
    CrossedUninstall();
    FileIsInTheWay();
    assert Cleaned(c, l) == c;
    InstallIsCleanUpdate(c, l);
  }

  /** A clean path that leaves the root: the cleaned tree updates, the install is refused. */
  lemma InstallRefused()
    ensures
      var l := Plan(["r"], [], [], [None]);
      && Update(Cleaned(EmptyRoot(), l), l).ok && !Install(EmptyRoot(), l).ok
  {
    var l := Plan(["r"], [], [], [None]);
    CrossedOk();
    UninstallSucceeds(EmptyRoot(), l);
    assert Cleaned(EmptyRoot(), l) == EmptyRoot();
    RootMadeAlready(EmptyRoot(), ["r"]);
  }
}
