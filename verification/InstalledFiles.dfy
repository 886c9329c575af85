/**
 What an update leaves of each item of a project, told from the item's source: all
 of it, name by name, but for the ignored names.
 */
module InstalledFiles {
  import opened Text
  import opened FileTree
  import opened TreeUpdate
  import opened UpdateTheorems
  import opened SteadyPlans
  import opened UpdateOutcome
  import opened Installer

  // ---- What is copied of a source ----

  /** What a copy of the source holds at `r`: what the source holds, unless the path has an ignored name in it. */
  ghost function Copied(s: Source, r: Path): Option<Node> {
    if r in s.nodes && (forall k | 0 <= k < |r| :: r[k] != ".DS_Store" && r[k] != "__pycache__") then Some(s.nodes[r])
    else None
  }

  /** As a data item: a file that is offered for a path with a slash at its end lands in a directory there. */
  ghost function CopiedData(rel: string, s: Source, r: Path): Option<Node> {
    if rel != "" && rel[|rel| - 1] == '/' && [] in s.nodes && s.nodes[[]].File? then
      if r == [] then Some(Dir) else if r == [s.name] then Some(s.nodes[[]]) else None
    else Copied(s, r)
  }

  lemma ImageIs(s: Source, r: Path)
    ensures Lookup(Image(s), r) == Copied(s, r)
  {
    forall k | 0 <= k < |r| ensures r[k] !in IgnoredNames <==> r[k] != ".DS_Store" && r[k] != "__pycache__" {
    }
  }

  lemma DataImageIs(rel: string, s: Source, r: Path)
    ensures Lookup(DataImage(rel, s), r) == CopiedData(rel, s, r)
  {
    ImageIs(s, r);
  }

  lemma ShiftedAt(p: Path, nodes: Tree, r: Path)
    ensures Lookup(Shift(p, nodes), p + r) == Lookup(nodes, r)
  {
    ShiftAt(p, nodes, p + r);
    assert (p + r)[|p|..] == r;
  }

  // ---- Through the two loops ----

  /** The job does not reach `p`: its place is neither above, nor at, nor under it. */
  ghost predicate Misses(j: Job, p: Path) {
    j.dst.Some? ==> !(j.dst.value <= p) && !Above(p, j.dst.value)
  }

  lemma {:induction false} LastLeaves(l: Plan, i: nat, n: nat, p: Path)
    requires i < n <= |l.modules| && Governs(l.modules[i], p) && Ready(l.modules[i])
    requires forall k | i < k < n :: Misses(l.modules[k], p)
    ensures AfterModules(l, n, p) == Lookup(l.modules[i].image.value, p)
  {
    if i < n - 1 {
      assert Misses(l.modules[n - 1], p);
      LastLeaves(l, i, n - 1, p);
    }
  }

  /** The data loop leaves alone what is there, and what no item reaches. */
  lemma {:induction false} DataLeaves(t: Tree, l: Plan, m: nat, n: nat, p: Path)
    requires m <= n <= |l.data|
    requires AtData(t, l, m, p).Some? || forall k | m <= k < n :: Misses(l.data[k], p)
    ensures AtData(t, l, n, p) == AtData(t, l, m, p)
  {
    if m < n {
      DataLeaves(t, l, m, n - 1, p);
      assert AtData(t, l, m, p).None? ==> Misses(l.data[n - 1], p);
    }
  }

  /** What is not there before a data item's turn is not there below either. */
  lemma NothingBelowData(t: Tree, l: Plan, n: nat, p: Path, q: Path)
    requires WellFormed(t) && PlanOk(l) && l.root != [] && Update(t, l).ok && n <= |l.data| && p <= q
    requires AtData(t, l, n, p).None?
    ensures AtData(t, l, n, q).None?
  {
    UpdateShape(t, l);
    ModulesLook(t, l);
    var x := Modules(MakeDirs(t, l.root), l, |l.modules|).tree;
    hide Modules, Datas, AtData, WellFormed, PlanOk, Update, HasNeeded, MakeDirs;
    DatasFinished(x, l, n);
    DatasOutcome(t, x, l, n);
    DatasWellFormed(x, l, n);
    var a := Datas(x, l, n).tree;
    assert LooksLike(t, l, n, a);
    assert Lookup(a, p) == AtData(t, l, n, p) && Lookup(a, q) == AtData(t, l, n, q);
    NothingBelow(a, p, q);
  }

  lemma DatasFinished(x: Tree, l: Plan, n: nat)
    requires n <= |l.data| && Datas(x, l, |l.data|).ok
    ensures Datas(x, l, n).ok
  {
    if !Datas(x, l, n).ok {
      FailedDatasStop(x, l, n);
    }
  }

  /** A data item whose place is free at its turn is filled in from its source. */
  lemma DataFills(t: Tree, l: Plan, j: nat, p: Path)
    requires WellFormed(t) && PlanOk(l) && l.root != [] && Update(t, l).ok && j < |l.data|
    requires Ready(l.data[j]) && l.data[j].dst.value <= p && AtData(t, l, j, l.data[j].dst.value).None?
    ensures AtData(t, l, j + 1, p) == Lookup(l.data[j].image.value, p)
  {
    NothingBelowData(t, l, j, l.data[j].dst.value, p);
  }

  // ---- For the items of a project ----

  /** The item path leads neither above, nor to, nor under `p`. */
  ghost predicate Avoids(root: Path, rel: string, p: Path) {
    var e := SafeJoin(root, rel);
    e.Some? ==> !(e.value <= p) && !(p < e.value)
  }

  lemma SuccessIsReady(t: Tree, l: Plan)
    requires WellFormed(t) && PlanOk(l) && l.root != [] && Update(t, l).ok
    ensures forall i | 0 <= i < |l.modules| :: Ready(l.modules[i])
    ensures forall i | 0 <= i < |l.data| :: Ready(l.data[i])
  {
    UpdateComesTo(t, l, []);
    forall i | 0 <= i < |l.modules| ensures Ready(l.modules[i]) {
      assert ModuleFits(t, l, i);
    }
    forall i | 0 <= i < |l.data| ensures Ready(l.data[i]) {
      assert DataFits(t, l, i);
    }
  }

  lemma ModulePlace(t: Tree, l: Layout, i: nat, r: Path)
    requires LayoutOk(l) && WellFormed(t) && l.root != [] && Update(t, PlanOf(l)).ok && i < |l.modules|
    ensures SafeJoin(l.root, l.modules[i]).Some? && l.modules[i] in l.moduleSources
    ensures
      var d, j := SafeJoin(l.root, l.modules[i]).value, PlanOf(l).modules[i];
      Ready(j) && j.dst.value == d && Lookup(j.image.value, d + r) == Copied(l.moduleSources[l.modules[i]], r)
  {
    PlanOfOk(l);
    SuccessIsReady(t, PlanOf(l));
    var rel := l.modules[i];
    assert Ready(PlanOf(l).modules[i]) && PlanOf(l).modules[i] == ModuleJob(l, rel);
    ImageIs(l.moduleSources[rel], r);
    ShiftedAt(SafeJoin(l.root, rel).value, Image(l.moduleSources[rel]), r);
  }

  lemma DataPlace(t: Tree, l: Layout, i: nat, r: Path)
    requires LayoutOk(l) && WellFormed(t) && l.root != [] && Update(t, PlanOf(l)).ok && i < |l.data|
    ensures SafeJoin(l.root, l.data[i]).Some? && l.data[i] in l.dataSources
    ensures
      var d, j := SafeJoin(l.root, l.data[i]).value, PlanOf(l).data[i];
      Ready(j) && j.dst.value == d && Lookup(j.image.value, d + r) == CopiedData(l.data[i], l.dataSources[l.data[i]], r)
  {
    PlanOfOk(l);
    SuccessIsReady(t, PlanOf(l));
    var rel := l.data[i];
    assert Ready(PlanOf(l).data[i]) && PlanOf(l).data[i] == DataJob(l, rel);
    DataImageIs(rel, l.dataSources[rel], r);
    ShiftedAt(SafeJoin(l.root, rel).value, DataImage(rel, l.dataSources[rel]), r);
  }

  lemma ItemsAvoid(l: Layout, p: Path)
    ensures |PlanOf(l).modules| == |l.modules| && |PlanOf(l).data| == |l.data|
    ensures forall k | 0 <= k < |l.modules| && Avoids(l.root, l.modules[k], p) :: Misses(PlanOf(l).modules[k], p)
    ensures forall k | 0 <= k < |l.data| && Avoids(l.root, l.data[k], p) :: Misses(PlanOf(l).data[k], p)
  {
  }

  /** What a successful update of a project leaves at a path. */
  ghost function After(t: Tree, l: Layout, p: Path): Option<Node> {
    Lookup(Update(t, PlanOf(l)).tree, p)
  }

  /**
   Where no later module reaches, a successful update leaves what the module's source
   holds; and where no data item reaches either, nothing else.
   */
  lemma ModuleInstalled(t: Tree, l: Layout, i: nat, d: Path, r: Path)
    requires LayoutOk(l) && WellFormed(t) && l.root != [] && Update(t, PlanOf(l)).ok
    requires i < |l.modules| && SafeJoin(l.root, l.modules[i]) == Some(d)
    requires forall k | i < k < |l.modules| :: Avoids(l.root, l.modules[k], d + r)
    ensures l.modules[i] in l.moduleSources
    ensures
      var c := Copied(l.moduleSources[l.modules[i]], r);
      && (c.Some? ==> After(t, l, d + r) == c)
      && ((forall k | 0 <= k < |l.data| :: Avoids(l.root, l.data[k], d + r)) ==> After(t, l, d + r) == c)
  {
    hide PlanOf, Update, Avoids, Misses, LayoutOk, PlanOk, WellFormed, SafeJoin, Fits, Copied, AfterModules;
    var plan, p := PlanOf(l), d + r;
    ModulePlace(t, l, i, r);
    PlanOfOk(l);
    PlanSizes(l);
    ItemsAvoid(l, p);
    UpdateComesTo(t, plan, p);
    assert Governs(plan.modules[i], p);
    LastLeaves(plan, i, |plan.modules|, p);
    assert AtData(t, plan, 0, p) == AfterModules(plan, |plan.modules|, p);
    var c := Copied(l.moduleSources[l.modules[i]], r);
    if c.Some? || forall k | 0 <= k < |l.data| :: Avoids(l.root, l.data[k], p) {
      DataLeaves(t, plan, 0, |plan.data|, p);
    }
  }

  /** Nothing is at `e` after the modules: no module leads there and nothing was, or the last that does has nothing. */
  ghost predicate Vacant(t: Tree, l: Layout, e: Path) {
    || (e !in t && !(e <= l.root) && forall k | 0 <= k < |l.modules| :: Avoids(l.root, l.modules[k], e))
    || (exists i: nat, d :: LastTo(l, i, d, e) && Copied(l.moduleSources[l.modules[i]], e[|d|..]).None?)
  }

  /** Module `i`, with place `d`, is the last to reach `e`, and `e` lies under it. */
  ghost predicate LastTo(l: Layout, i: nat, d: Path, e: Path) {
    && i < |l.modules| && l.modules[i] in l.moduleSources && SafeJoin(l.root, l.modules[i]) == Some(d) && d <= e
    && forall k | i < k < |l.modules| :: Avoids(l.root, l.modules[k], e)
  }

  lemma LastHasNone(t: Tree, l: Layout, i: nat, d: Path, e: Path)
    requires LayoutOk(l) && WellFormed(t) && l.root != [] && Update(t, PlanOf(l)).ok
    requires LastTo(l, i, d, e) && Copied(l.moduleSources[l.modules[i]], e[|d|..]).None?
    ensures AtData(t, PlanOf(l), 0, e).None?
  {
    hide PlanOf, Update, LayoutOk, WellFormed, Misses, Avoids, Copied, SafeJoin, AfterModules;
    var plan := PlanOf(l);
    ItemsAvoid(l, e);
    PlanSizes(l);
    ModulePlace(t, l, i, e[|d|..]);
    assert d + e[|d|..] == e;
    assert Governs(plan.modules[i], e);
    LastLeaves(plan, i, |plan.modules|, e);
  }

  lemma PlanSizes(l: Layout)
    ensures |PlanOf(l).modules| == |l.modules| && |PlanOf(l).data| == |l.data| && PlanOf(l).root == l.root
  {
  }

  lemma NoneLeadsThere(t: Tree, l: Layout, e: Path)
    requires e !in t && !(e <= l.root) && forall k | 0 <= k < |l.modules| :: Avoids(l.root, l.modules[k], e)
    ensures AtData(t, PlanOf(l), 0, e).None?
  {
    var plan := PlanOf(l);
    ItemsAvoid(l, e);
    assert |plan.modules| == |l.modules| && plan.root == l.root;
    hide PlanOf, Avoids;
    forall k | 0 <= k < |plan.modules| ensures Misses(plan.modules[k], e) {
    }
    assert !Governed(plan, |plan.modules|, e) && !Needed(plan, |plan.modules|, e);
  }

  lemma VacantIsFree(t: Tree, l: Layout, e: Path)
    requires LayoutOk(l) && WellFormed(t) && l.root != [] && Update(t, PlanOf(l)).ok && Vacant(t, l, e)
    ensures AtData(t, PlanOf(l), 0, e).None?
  {
    hide PlanOf, Update, LayoutOk, WellFormed, AtData, Copied, Avoids;
    if i: nat, d :| LastTo(l, i, d, e) && Copied(l.moduleSources[l.modules[i]], e[|d|..]).None? {
      LastHasNone(t, l, i, d, e);
    } else {
      NoneLeadsThere(t, l, e);
    }
  }

  /** A data path that is vacant, and that no earlier data item reaches, is filled in with all of its source. */
  lemma DataInstalled(t: Tree, l: Layout, i: nat, e: Path, r: Path)
    requires LayoutOk(l) && WellFormed(t) && l.root != [] && Update(t, PlanOf(l)).ok
    requires i < |l.data| && SafeJoin(l.root, l.data[i]) == Some(e) && Vacant(t, l, e)
    requires forall k | 0 <= k < i :: Avoids(l.root, l.data[k], e)
    ensures l.data[i] in l.dataSources
    ensures
      var c := CopiedData(l.data[i], l.dataSources[l.data[i]], r);
      && (c.Some? ==> After(t, l, e + r) == c)
      && ((forall k | i < k < |l.data| :: Avoids(l.root, l.data[k], e + r)) ==> After(t, l, e + r) == c)
  {
    hide PlanOf, Update, Avoids, Misses, LayoutOk, PlanOk, WellFormed, SafeJoin, AtData, Vacant, Fits, CopiedData;
    var plan, p := PlanOf(l), e + r;
    DataPlace(t, l, i, r);
    PlanOfOk(l);
    PlanSizes(l);
    ItemsAvoid(l, e);
    ItemsAvoid(l, p);
    VacantIsFree(t, l, e);
    UpdateComesTo(t, plan, p);
    DataLeaves(t, plan, 0, i, e);
    DataFills(t, plan, i, p);
    var c := CopiedData(l.data[i], l.dataSources[l.data[i]], r);
    if c.Some? || forall k | i < k < |l.data| :: Avoids(l.root, l.data[k], p) {
      DataLeaves(t, plan, i + 1, |plan.data|, p);
    }
  }

  /** An install that succeeds leaves the same of each module. */
  lemma ModuleFreshlyInstalled(t: Tree, l: Layout, i: nat, d: Path, r: Path)
    requires LayoutOk(l) && WellFormed(t) && l.root != [] && Install(t, PlanOf(l)).ok
    requires i < |l.modules| && SafeJoin(l.root, l.modules[i]) == Some(d)
    requires forall k | i < k < |l.modules| :: Avoids(l.root, l.modules[k], d + r)
    ensures l.modules[i] in l.moduleSources
    ensures
      var c, now := Copied(l.moduleSources[l.modules[i]], r), Lookup(Install(t, PlanOf(l)).tree, d + r);
      && (c.Some? ==> now == c)
      && ((forall k | 0 <= k < |l.data| :: Avoids(l.root, l.data[k], d + r)) ==> now == c)
  {
    UninstallWellFormed(t, PlanOf(l));
    ModuleInstalled(Uninstall(t, PlanOf(l)).tree, l, i, d, r);
  }
}
