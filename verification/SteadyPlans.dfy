/**
 Which plans an update is idempotent for. Under the modules an update leaves what
 the plan says, whatever was there before; so a file that one module leaves in
 another's way is there after every update, or after none.
 */
module SteadyPlans {
  import opened Text
  import opened FileTree
  import opened TreeUpdate
  import opened UpdateTheorems

  function Lookup(t: Tree, p: Path): Option<Node> {
    if p in t then Some(t[p]) else None
  }

  // ---- What the plan leaves under the modules ----

  /** What the first `n` modules leave at a path that one of them governs: the last to touch it decides. */
  ghost function AfterModules(l: Plan, n: nat, p: Path): Option<Node>
    requires n <= |l.modules|
  {
    if n == 0 then None
    else
      var j := l.modules[n - 1];
      if Governs(j, p) then (if j.image.Some? then Lookup(j.image.value, p) else None)
      else if j.dst.Some? && Above(p, j.dst.value) then Some(Dir)
      else AfterModules(l, n - 1, p)
  }

  /** ... and after the first `n` data items, each of which fills in what is not there. */
  ghost function AfterData(l: Plan, n: nat, p: Path): Option<Node>
    requires n <= |l.data|
  {
    if n == 0 then AfterModules(l, |l.modules|, p)
    else
      var j := l.data[n - 1];
      var before := AfterData(l, n - 1, p);
      if before.Some? || !Ready(j) || !InModules(l, j.dst.value) || AfterData(l, n - 1, j.dst.value).Some? then before
      else if j.dst.value <= p then Lookup(j.image.value, p)
      else if Above(p, j.dst.value) then Some(Dir)
      else None
  }

  /** What an update leaves at a path under a module. */
  ghost function Left(l: Plan, p: Path): Option<Node> {
    AfterData(l, |l.data|, p)
  }

  lemma {:induction false} ModulesLeave(t: Tree, l: Plan, n: nat, p: Path)
    requires PlanOk(l) && n <= |l.modules| && Governed(l, n, p) && Modules(t, l, n).ok
    ensures Lookup(Modules(t, l, n).tree, p) == AfterModules(l, n, p)
  {
    hide Place;
    ModuleAt(t, l, n, p);
    GovernedStep(l, n, p);
    if !Governs(l.modules[n - 1], p) && !Above(p, l.modules[n - 1].dst.value) {
      ModulesLeave(t, l, n - 1, p);
    }
  }

  /** Filling in a data path that lies outside the modules touches nothing under them. */
  lemma OutsideData(l: Plan, a: Tree, j: Job, p: Path)
    requires HasNeeded(l, a) && Ready(j) && HangsAt(j.image.value, j.dst.value) && InModules(l, p)
    requires !InModules(l, j.dst.value) && InstallData(a, j).ok
    ensures SameAt(InstallData(a, j).tree, a, p)
  {
    var d := j.dst.value;
    if d !in a {
      PlaceAt(a, d, j.image.value, p);
      if d <= p {
        AboveModule(l, d, p);
      } else if Above(p, d) {
        BelowModule(l, p, d);
      }
    }
  }

  /** Filling in a data path under a module: what is there afterwards. */
  lemma InsideData(a: Tree, j: Job, p: Path)
    requires WellFormed(a) && Ready(j) && HangsAt(j.image.value, j.dst.value) && InstallData(a, j).ok
    ensures Lookup(InstallData(a, j).tree, p) ==
      if p in a || j.dst.value in a then Lookup(a, p)
      else if j.dst.value <= p then Lookup(j.image.value, p)
      else if Above(p, j.dst.value) then Some(Dir)
      else None
  {
    if j.dst.value !in a {
      PlaceAt(a, j.dst.value, j.image.value, p);
      if j.dst.value <= p {
        NothingBelow(a, j.dst.value, p);
      }
    }
  }

  ghost predicate AsPlanned(l: Plan, n: nat, a: Tree)
    requires n <= |l.data|
  {
    forall p | InModules(l, p) :: Lookup(a, p) == AfterData(l, n, p)
  }

  lemma DataAsPlanned(l: Plan, n: nat, a: Tree)
    requires PlanOk(l) && n < |l.data| && WellFormed(a) && HasNeeded(l, a) && AsPlanned(l, n, a)
    requires InstallData(a, l.data[n]).ok
    ensures AsPlanned(l, n + 1, InstallData(a, l.data[n]).tree)
  {
    var j := l.data[n];
    assert JobOk(l.root, j);
    forall p | InModules(l, p) ensures Lookup(InstallData(a, j).tree, p) == AfterData(l, n + 1, p) {
      assert Lookup(a, p) == AfterData(l, n, p);
      if InModules(l, j.dst.value) {
        assert Lookup(a, j.dst.value) == AfterData(l, n, j.dst.value);
        InsideData(a, j, p);
      } else {
        OutsideData(l, a, j, p);
      }
    }
  }

  lemma {:induction false} DatasAsPlanned(x: Tree, l: Plan, n: nat)
    requires PlanOk(l) && n <= |l.data| && WellFormed(x) && HasNeeded(l, x) && AsPlanned(l, 0, x)
    requires Datas(x, l, |l.data|).ok
    ensures AsPlanned(l, n, Datas(x, l, n).tree)
  {
    hide AsPlanned, HasNeeded, WellFormed, PlanOk, InstallData;
    if n > 0 {
      DatasAsPlanned(x, l, n - 1);
      DatasNext(x, l, n - 1);
      DatasWellFormed(x, l, n - 1);
      StillNeeded(l, x, n - 1);
      DataAsPlanned(l, n - 1, Datas(x, l, n - 1).tree);
    }
  }

  /** Under the modules a successful update leaves exactly what the plan says, whatever was there before. */
  lemma UpdateLeaves(t: Tree, l: Plan, p: Path)
    requires WellFormed(t) && PlanOk(l) && Update(t, l).ok && InModules(l, p)
    ensures Lookup(Update(t, l).tree, p) == Left(l, p)
  {
    UpdateShape(t, l);
    var x0 := MakeDirs(t, l.root);
    var x := Modules(x0, l, |l.modules|).tree;
    forall q | InModules(l, q) ensures Lookup(x, q) == AfterData(l, 0, q) {
      ModulesLeave(x0, l, |l.modules|, q);
    }
    assert AsPlanned(l, 0, x);
    DatasAsPlanned(x, l, |l.data|);
  }

  // ---- What is in a module's way ----

  /** Outside the modules, what an update finds or makes is still there at its end. */
  lemma OutsideKept(t: Tree, l: Plan, p: Path)
    requires WellFormed(t) && PlanOk(l) && Update(t, l).ok && !InModules(l, p)
    requires p in MakeDirs(t, l.root) || Needed(l, |l.modules|, p)
    ensures
      var x := MakeDirs(t, l.root);
      p in Update(t, l).tree && Update(t, l).tree[p] == if p in x then x[p] else Dir
  {
    UpdateShape(t, l);
    ModulesOutside(MakeDirs(t, l.root), l, |l.modules|, p);
    DatasAdd(Modules(MakeDirs(t, l.root), l, |l.modules|).tree, l, 0, |l.data|, p);
  }

  /** Outside the modules, what is above a module is a directory after a successful update. */
  lemma DirAboveModule(t: Tree, l: Plan, i: nat, p: Path)
    requires WellFormed(t) && PlanOk(l) && l.root != [] && Update(t, l).ok && !InModules(l, p)
    requires i < |l.modules| && l.modules[i].dst.Some? && Above(p, l.modules[i].dst.value)
    ensures p in Update(t, l).tree && Update(t, l).tree[p] == Dir
  {
    UpdateShape(t, l);
    var x := MakeDirs(t, l.root);
    ModulesSucceed(x, x, l, |l.modules|);
    assert Needed(l, |l.modules|, p);
    assert p in x && x[p].File? ==> Governed(l, i, p);
    OutsideKept(t, l, p);
  }

  lemma DirAtRoot(t: Tree, l: Plan)
    requires WellFormed(t) && PlanOk(l) && Update(t, l).ok && !InModules(l, l.root)
    ensures l.root in Update(t, l).tree && Update(t, l).tree[l.root] == Dir
  {
    MakeDirsAt(t, l.root, l.root);
    OutsideKept(t, l, l.root);
  }

  ghost predicate IsFile(o: Option<Node>) {
    o.Some? && o.value.File?
  }

  /**
   The plan leaves no file in a module's way: none at the root, and none above a
   module unless an earlier module replaces it first.
   */
  ghost predicate Steady(l: Plan) {
    && (InModules(l, l.root) ==> !IsFile(Left(l, l.root)))
    && (forall i, p | 0 <= i < |l.modules| && l.modules[i].dst.Some? && Above(p, l.modules[i].dst.value)
          && InModules(l, p) && !Governed(l, i, p) :: !IsFile(Left(l, p)))
  }

  /** After a successful update the tree is passable exactly if the plan is steady. */
  lemma PassableIff(t: Tree, l: Plan)
    requires WellFormed(t) && PlanOk(l) && l.root != [] && Update(t, l).ok
    ensures Passable(Update(t, l).tree, l) <==> Steady(l)
  {
    var z := Update(t, l).tree;
    hide Update, WellFormed, Left, Needed;
    if InModules(l, l.root) {
      UpdateLeaves(t, l, l.root);
    } else {
      DirAtRoot(t, l);
    }
    forall i, p | 0 <= i < |l.modules| && l.modules[i].dst.Some? && Above(p, l.modules[i].dst.value)
      ensures p in z && z[p].File? <==> InModules(l, p) && IsFile(Left(l, p))
    {
      if InModules(l, p) {
        UpdateLeaves(t, l, p);
      } else {
        DirAboveModule(t, l, i, p);
      }
    }
  }

  /**
   Whatever tree it starts from, a successful update is idempotent if and only if
   its plan is steady; otherwise every second update fails.
   */
  lemma UpdateIdempotentIff(t: Tree, l: Plan)
    requires WellFormed(t) && PlanOk(l) && l.root != [] && Update(t, l).ok
    ensures Update(Update(t, l).tree, l) == Update(t, l) <==> Steady(l)
    ensures Update(Update(t, l).tree, l).ok <==> Steady(l)
  {
    hide Update, Passable, Steady;
    UpdateRepeats(t, l);
    PassableIff(t, l);
  }

  // ---- Modules apart ----

  /** No module is at the root, and none lies at or under another. */
  ghost predicate Apart(l: Plan) {
    && (forall i | 0 <= i < |l.modules| && l.modules[i].dst.Some? :: l.modules[i].dst.value != l.root)
    && (forall i, k | 0 <= i < |l.modules| && 0 <= k < |l.modules| && i != k && l.modules[k].dst.Some? ::
          !Governs(l.modules[i], l.modules[k].dst.value))
  }

  /** With modules apart, what is above a module is under none. */
  lemma AboveApart(l: Plan, k: nat, p: Path)
    requires Apart(l) && k < |l.modules| && l.modules[k].dst.Some? && Above(p, l.modules[k].dst.value)
    ensures !InModules(l, p)
  {
    forall i | 0 <= i < |l.modules| ensures !Governs(l.modules[i], p) {
      if Governs(l.modules[i], p) {
        assert Governs(l.modules[i], l.modules[k].dst.value);
      }
    }
  }

  lemma RootApart(l: Plan)
    requires Apart(l) && PlanOk(l)
    ensures !InModules(l, l.root)
  {
    forall i | 0 <= i < |l.modules| ensures !Governs(l.modules[i], l.root) {
      assert JobOk(l.root, l.modules[i]);
    }
  }

  /** For modules apart from each other an update is idempotent. */
  lemma UpdateIdempotent(t: Tree, l: Plan)
    requires WellFormed(t) && PlanOk(l) && l.root != [] && Apart(l) && Update(t, l).ok
    ensures Update(Update(t, l).tree, l) == Update(t, l)
  {
    RootApart(l);
    forall i: nat, p | i < |l.modules| && l.modules[i].dst.Some? && Above(p, l.modules[i].dst.value)
      ensures !InModules(l, p)
    {
      AboveApart(l, i, p);
    }
    UpdateIdempotentIff(t, l);
  }
}
