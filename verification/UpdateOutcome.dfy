/**
 An update read path by path: whether it succeeds, what it leaves at every path,
 and where everything it leaves comes from.
 */
module UpdateOutcome {
  import opened Text
  import opened FileTree
  import opened TreeUpdate
  import opened UpdateTheorems
  import opened SteadyPlans

  // ---- What is at a path before each turn ----

  /** What is at `p` when the target root is made and `n` modules are in place. */
  ghost function AtModules(t: Tree, l: Plan, n: nat, p: Path): Option<Node>
    requires n <= |l.modules|
  {
    if Governed(l, n, p) then AfterModules(l, n, p)
    else if p in t then Some(t[p])
    else if p <= l.root || Needed(l, n, p) then Some(Dir)
    else None
  }

  /** ... and when all modules and `n` data items are, each of which is filled in unless it is there. */
  ghost function AtData(t: Tree, l: Plan, n: nat, p: Path): Option<Node>
    requires n <= |l.data|
  {
    if n == 0 then AtModules(t, l, |l.modules|, p)
    else
      var j := l.data[n - 1];
      var before := AtData(t, l, n - 1, p);
      if before.Some? || !Ready(j) || AtData(t, l, n - 1, j.dst.value).Some? then before
      else if j.dst.value <= p then Lookup(j.image.value, p)
      else if Above(p, j.dst.value) then Some(Dir)
      else None
  }

  // ---- Whether an update succeeds ----

  /** The `i`th module has a source and a place under the root, and no file is in its way. */
  ghost predicate ModuleFits(t: Tree, l: Plan, i: nat)
    requires i < |l.modules|
  {
    Ready(l.modules[i]) && forall p | Above(p, l.modules[i].dst.value) :: !IsFile(AtModules(t, l, i, p))
  }

  ghost predicate DataFits(t: Tree, l: Plan, i: nat)
    requires i < |l.data|
  {
    Ready(l.data[i]) && forall p | Above(p, l.data[i].dst.value) :: !IsFile(AtData(t, l, i, p))
  }

  ghost predicate ModulesFit(t: Tree, l: Plan, n: nat)
    requires n <= |l.modules|
  {
    forall i | 0 <= i < n :: ModuleFits(t, l, i)
  }

  ghost predicate DatasFit(t: Tree, l: Plan, n: nat)
    requires n <= |l.data|
  {
    forall i | 0 <= i < n :: DataFits(t, l, i)
  }

  /** No file at the root or above it, and every item fits. */
  ghost predicate Fits(t: Tree, l: Plan) {
    CanMakeDirs(t, l.root) && ModulesFit(t, l, |l.modules|) && DatasFit(t, l, |l.data|)
  }

  // ---- The module loop ----

  lemma ModulesAt(t: Tree, l: Plan, n: nat, p: Path)
    requires PlanOk(l) && n <= |l.modules| && Modules(MakeDirs(t, l.root), l, n).ok
    ensures Lookup(Modules(MakeDirs(t, l.root), l, n).tree, p) == AtModules(t, l, n, p)
  {
    if Governed(l, n, p) {
      ModulesLeave(MakeDirs(t, l.root), l, n, p);
    } else {
      ModulesOutside(MakeDirs(t, l.root), l, n, p);
      MakeDirsAt(t, l.root, p);
    }
  }

  lemma ModuleOkIff(t: Tree, l: Plan, n: nat)
    requires PlanOk(l) && l.root != [] && n < |l.modules| && Modules(MakeDirs(t, l.root), l, n).ok
    ensures Modules(MakeDirs(t, l.root), l, n + 1).ok <==> ModuleFits(t, l, n)
  {
    if Ready(l.modules[n]) {
      assert JobOk(l.root, l.modules[n]);
      var x := MakeDirs(t, l.root);
      hide Place, MakeDirs, PlanOk, AtModules;
      ModuleOk(x, l, n + 1);
      var b := Modules(x, l, n).tree;
      forall p ensures IsFile(AtModules(t, l, n, p)) <==> p in b && b[p].File? {
        ModulesAt(t, l, n, p);
      }
    }
  }

  lemma {:induction false} ModulesOkIff(t: Tree, l: Plan, n: nat)
    requires PlanOk(l) && l.root != [] && n <= |l.modules|
    ensures Modules(MakeDirs(t, l.root), l, n).ok <==> ModulesFit(t, l, n)
  {
    hide Place, MakeDirs, ModuleFits;
    if n > 0 {
      ModulesOkIff(t, l, n - 1);
      assert ModulesFit(t, l, n) <==> ModulesFit(t, l, n - 1) && ModuleFits(t, l, n - 1);
      if Modules(MakeDirs(t, l.root), l, n - 1).ok {
        ModuleOkIff(t, l, n - 1);
      }
    }
  }

  // ---- The data loop ----

  ghost predicate LooksLike(t: Tree, l: Plan, n: nat, a: Tree)
    requires n <= |l.data|
  {
    forall p :: Lookup(a, p) == AtData(t, l, n, p)
  }

  lemma DataOkIff(a: Tree, j: Job)
    requires WellFormed(a) && Ready(j) && j.dst.value != []
    ensures InstallData(a, j).ok <==> forall p | Above(p, j.dst.value) && p in a :: a[p].Dir?
  {
    PlaceSucceeds(a, j.dst.value, j.image.value);
  }

  lemma DataTurnFits(t: Tree, l: Plan, n: nat, a: Tree)
    requires PlanOk(l) && l.root != [] && n < |l.data| && WellFormed(a) && LooksLike(t, l, n, a)
    ensures InstallData(a, l.data[n]).ok <==> DataFits(t, l, n)
  {
    var j := l.data[n];
    if Ready(j) {
      assert JobOk(l.root, j);
      DataOkIff(a, j);
      hide InstallData, WellFormed, AtData, PlanOk;
      forall p ensures IsFile(AtData(t, l, n, p)) <==> p in a && a[p].File? {
        assert Lookup(a, p) == AtData(t, l, n, p);
      }
    }
  }

  lemma DataTurnLooks(t: Tree, l: Plan, n: nat, a: Tree)
    requires PlanOk(l) && n < |l.data| && WellFormed(a) && LooksLike(t, l, n, a) && InstallData(a, l.data[n]).ok
    ensures LooksLike(t, l, n + 1, InstallData(a, l.data[n]).tree)
  {
    var j := l.data[n];
    assert JobOk(l.root, j);
    assert Ready(j);
    hide InstallData, WellFormed, PlanOk, HangsAt;
    assert Lookup(a, j.dst.value) == AtData(t, l, n, j.dst.value);
    forall p ensures Lookup(InstallData(a, j).tree, p) == AtData(t, l, n + 1, p) {
      assert Lookup(a, p) == AtData(t, l, n, p);
      InsideData(a, j, p);
    }
  }

  /** After `n` turns of the data loop: whether it got there, and what is at every path. */
  lemma {:induction false} DatasOutcome(t: Tree, x: Tree, l: Plan, n: nat)
    requires PlanOk(l) && l.root != [] && n <= |l.data| && WellFormed(x) && LooksLike(t, l, 0, x)
    ensures Datas(x, l, n).ok <==> DatasFit(t, l, n)
    ensures Datas(x, l, n).ok ==> LooksLike(t, l, n, Datas(x, l, n).tree)
  {
    hide InstallData, WellFormed, PlanOk, LooksLike, DataFits;
    if n > 0 {
      DatasOutcome(t, x, l, n - 1);
      assert DatasFit(t, l, n) <==> DatasFit(t, l, n - 1) && DataFits(t, l, n - 1);
      if Datas(x, l, n - 1).ok {
        var a := Datas(x, l, n - 1).tree;
        DatasWellFormed(x, l, n - 1);
        DatasStep(x, l, n - 1, a);
        DataTurnFits(t, l, n - 1, a);
        if InstallData(a, l.data[n - 1]).ok {
          DataTurnLooks(t, l, n - 1, a);
        }
      }
    }
  }

  lemma ModulesLook(t: Tree, l: Plan)
    requires PlanOk(l) && Modules(MakeDirs(t, l.root), l, |l.modules|).ok
    ensures LooksLike(t, l, 0, Modules(MakeDirs(t, l.root), l, |l.modules|).tree)
  {
    hide Place, MakeDirs, AtModules;
    forall p ensures Lookup(Modules(MakeDirs(t, l.root), l, |l.modules|).tree, p) == AtData(t, l, 0, p) {
      ModulesAt(t, l, |l.modules|, p);
    }
  }

  /**
   On every tree an update succeeds exactly if every item fits, and then the tree
   and the plan say what it leaves at every path.
   */
  lemma UpdateComesTo(t: Tree, l: Plan, p: Path)
    requires WellFormed(t) && PlanOk(l) && l.root != []
    ensures Update(t, l).ok <==> Fits(t, l)
    ensures Update(t, l).ok ==> Lookup(Update(t, l).tree, p) == AtData(t, l, |l.data|, p)
  {
    if CanMakeDirs(t, l.root) {
      var x0 := MakeDirs(t, l.root);
      MakeDirsWellFormed(t, l.root);
      hide Modules, Datas, WellFormed, PlanOk, MakeDirs, AtData, ModulesFit, DatasFit;
      ModulesOkIff(t, l, |l.modules|);
      var x := Modules(x0, l, |l.modules|);
      if x.ok {
        ModulesLook(t, l);
        ModulesWellFormed(x0, l, |l.modules|);
        DatasOutcome(t, x.tree, l, |l.data|);
      }
    }
  }

  // ---- Where it all comes from ----

  /** The item puts `node` at `p`: from its source, or as a directory above its place. */
  ghost predicate Brings(j: Job, p: Path, node: Node) {
    Ready(j) && (Lookup(j.image.value, p) == Some(node) || (Above(p, j.dst.value) && node == Dir))
  }

  /** One of the first `n` modules or `m` data items brings it. */
  ghost predicate Brought(l: Plan, n: nat, m: nat, p: Path, node: Node) {
    || (exists i | 0 <= i < n && i < |l.modules| :: Brings(l.modules[i], p, node))
    || (exists i | 0 <= i < m && i < |l.data| :: Brings(l.data[i], p, node))
  }

  lemma PlaceComesFrom(t: Tree, j: Job, p: Path)
    requires Ready(j) && HangsAt(j.image.value, j.dst.value) && Place(t, j.dst.value, j.image.value).ok
    ensures
      var u := Place(t, j.dst.value, j.image.value).tree;
      p in u ==> (p in t && t[p] == u[p]) || Brings(j, p, u[p])
  {
    PlaceAt(t, j.dst.value, j.image.value, p);
  }

  lemma ModuleComesFrom(t: Tree, j: Job, p: Path)
    requires (Ready(j) ==> HangsAt(j.image.value, j.dst.value)) && p in InstallModule(t, j).tree
    ensures (p in t && t[p] == InstallModule(t, j).tree[p]) || Brings(j, p, InstallModule(t, j).tree[p])
  {
    if InstallModule(t, j).ok {
      PlaceComesFrom(t, j, p);
    }
  }

  lemma DataComesFrom(t: Tree, j: Job, p: Path)
    requires (Ready(j) ==> HangsAt(j.image.value, j.dst.value)) && p in InstallData(t, j).tree
    ensures (p in t && t[p] == InstallData(t, j).tree[p]) || Brings(j, p, InstallData(t, j).tree[p])
  {
    if Ready(j) && j.dst.value !in t && InstallData(t, j).ok {
      PlaceComesFrom(t, j, p);
    }
  }

  lemma {:induction false} ModulesComeFrom(t: Tree, l: Plan, n: nat, p: Path)
    requires PlanOk(l) && n <= |l.modules| && p in Modules(t, l, n).tree
    ensures
      var node := Modules(t, l, n).tree[p];
      (p in t && t[p] == node) || Brought(l, n, 0, p, node)
  {
    hide InstallModule, Brings;
    if n > 0 {
      var u := Modules(t, l, n - 1);
      assert JobOk(l.root, l.modules[n - 1]);
      if u.ok {
        ModuleComesFrom(u.tree, l.modules[n - 1], p);
      }
      if p in u.tree && u.tree[p] == Modules(t, l, n).tree[p] {
        ModulesComeFrom(t, l, n - 1, p);
      }
    }
  }

  lemma {:induction false} DatasComeFrom(t: Tree, l: Plan, n: nat, p: Path)
    requires PlanOk(l) && n <= |l.data| && p in Datas(t, l, n).tree
    ensures
      var node := Datas(t, l, n).tree[p];
      (p in t && t[p] == node) || Brought(l, 0, n, p, node)
  {
    hide InstallData, Brings;
    if n > 0 {
      var u := Datas(t, l, n - 1);
      assert JobOk(l.root, l.data[n - 1]);
      if u.ok {
        DataComesFrom(u.tree, l.data[n - 1], p);
      }
      if p in u.tree && u.tree[p] == Datas(t, l, n).tree[p] {
        DatasComeFrom(t, l, n - 1, p);
      }
    }
  }

  /** Whatever an update leaves, finished or not, was there before, leads to the root, or comes from an item. */
  lemma NothingStray(t: Tree, l: Plan, p: Path)
    requires PlanOk(l) && p in Update(t, l).tree
    ensures
      var node := Update(t, l).tree[p];
      (p in t && t[p] == node) || (p <= l.root && node == Dir) || Brought(l, |l.modules|, |l.data|, p, node)
  {
    if CanMakeDirs(t, l.root) {
      var node := Update(t, l).tree[p];
      var x0 := MakeDirs(t, l.root);
      MakeDirsAt(t, l.root, p);
      hide Modules, Datas, PlanOk, MakeDirs, Brings;
      var x := Modules(x0, l, |l.modules|);
      if x.ok {
        DatasComeFrom(x.tree, l, |l.data|, p);
      }
      if p in x.tree && x.tree[p] == node {
        ModulesComeFrom(x0, l, |l.modules|, p);
      }
    }
  }
}
