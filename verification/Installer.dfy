/**
 From the item paths of a project file to a plan for its target directory:
 `_safe_join`, the source of each item, and the shape a copied item takes.
 */
module Installer {
  import opened Text
  import opened FileTree
  import opened TreeUpdate
  import opened UpdateTheorems
  import opened SteadyPlans
  import opened UpdateOutcome

  /** Item paths as written in the project file, and the source found for each. */
  datatype Layout = Layout(
    root: Path, modules: seq<string>, data: seq<string>, clean: seq<string>,
    moduleSources: map<string, Source>, dataSources: map<string, Source>)

  ghost predicate SourceOk(s: Source) {
    WellFormed(s.nodes) && [] in s.nodes
  }

  /** The sources are themselves file trees. */
  ghost predicate LayoutOk(l: Layout) {
    && (forall rel | rel in l.moduleSources :: SourceOk(l.moduleSources[rel]))
    && (forall rel | rel in l.dataSources :: SourceOk(l.dataSources[rel]))
  }

  // ---- Joining an item path to the target root ----

  /** Path resolution without links: "" and "." are dropped, ".." goes up and stops at the top. */
  function Resolve(base: Path, parts: seq<string>): Path
    decreases |parts|
  {
    if parts == [] then base
    else if parts[0] == "" || parts[0] == "." then Resolve(base, parts[1..])
    else if parts[0] == ".." then Resolve(Parent(base), parts[1..])
    else Resolve(base + [parts[0]], parts[1..])
  }

  function LeadingSlashes(s: string): nat {
    if s == "" || s[0] != '/' then 0 else 1 + LeadingSlashes(s[1..])
  }

  /**
   `_safe_join`: one leading slash is forgiven; what is still absolute is taken as
   absolute (exactly two slashes name a root of their own); a result outside the
   target root is refused.
   */
  function SafeJoin(root: Path, rel: string): (r: Option<Path>)
    ensures r.Some? ==> root <= r.value
  {
    var s := Strip(rel);
    var t := if s != "" && s[0] == '/' then s[1..] else s;
    var slashes := LeadingSlashes(t);
    var candidate := Resolve(if slashes == 0 then root else [], Split(t, '/'));
    if slashes != 2 && root <= candidate then Some(candidate) else None
  }

  lemma {:induction false} ResolveConcat(base: Path, a: seq<string>, b: seq<string>)
    ensures Resolve(base, a + b) == Resolve(Resolve(base, a), b)
    decreases |a|
  {
    if a == [] {
      assert a + b == b;
    } else {
      assert (a + b)[1..] == a[1..] + b;
      var x := a[0];
      ResolveConcat(if x == "" || x == "." then base else if x == ".." then Parent(base) else base + [x], a[1..], b);
    }
  }

  /** A name, as opposed to nothing, "." and "..". */
  predicate IsName(x: string) {
    x != "" && x != "." && x != ".."
  }

  lemma {:induction false} ResolveNames(base: Path, names: seq<string>)
    requires forall i | 0 <= i < |names| :: IsName(names[i])
    ensures Resolve(base, names) == base + names
    decreases |names|
  {
    if names == [] {
      assert base + names == base;
    } else {
      ResolveNames(base + [names[0]], names[1..]);
      assert base + [names[0]] + names[1..] == base + names;
    }
  }

  /** Wherever they stand, "." and nothing are skipped, and ".." takes back the name before it. */
  lemma ResolveLaws(base: Path, a: seq<string>, x: string, b: seq<string>)
    requires IsName(x)
    ensures Resolve(base, a + ["."] + b) == Resolve(base, a + [""] + b) == Resolve(base, a + b)
    ensures Resolve(base, a + [x, ".."] + b) == Resolve(base, a + b)
    ensures Resolve([], [".."] + b) == Resolve([], b)
  {
    ResolveConcat(base, a, b);
    forall m: seq<string> ensures Resolve(base, a + m + b) == Resolve(Resolve(Resolve(base, a), m), b) {
      ResolveConcat(base, a + m, b);
      ResolveConcat(base, a, m);
    }
    ResolveConcat([], [".."], b);
    var c := Resolve(base, a);
    ResolveStep(c, x);
    ResolveStep([], x);
  }

  lemma ResolveStep(c: Path, x: string)
    requires IsName(x)
    ensures Resolve(c, ["."]) == Resolve(c, [""]) == c
    ensures Resolve(c, [x, ".."]) == c
    ensures Resolve([], [".."]) == []
  {
    assert [x, ".."][1..] == [".."] && [".."][1..] == [] && ["."][1..] == [] && [""][1..] == [];
    assert Parent(c + [x]) == c;
  }

  /** A relative path, as it stands or with one slash in front, is resolved at the root. */
  lemma SafeJoinRelative(root: Path, s: string)
    requires Trimmed(s) && s != "" && s[0] != '/'
    ensures
      var p := Resolve(root, Split(s, '/'));
      SafeJoin(root, s) == SafeJoin(root, "/" + s) == if root <= p then Some(p) else None
  {
    hide Resolve, Split, StripLeft, StripRight;
    assert ("/" + s)[1..] == s;
    StripTrimmed(s);
    assert Trimmed("/" + s);
    StripTrimmed("/" + s);
  }

  /** Blanks around an item path do not count. */
  lemma SafeJoinTrims(root: Path, rel: string)
    ensures SafeJoin(root, rel) == SafeJoin(root, Strip(rel))
  {
    StripTrimmed(rel);
    StripTrimmed(Strip(rel));
  }

  /** A text with a number of slashes in front. */
  ghost function Slashed(n: nat, s: string): string {
    if n == 0 then s else "/" + Slashed(n - 1, s)
  }

  lemma {:induction false} LeadingSlashesOf(n: nat, s: string)
    requires s == "" || s[0] != '/'
    ensures LeadingSlashes(Slashed(n, s)) == n
  {
    if n > 0 {
      assert Slashed(n, s)[1..] == Slashed(n - 1, s);
      LeadingSlashesOf(n - 1, s);
    }
  }

  lemma {:induction false} ResolveSlashes(n: nat, s: string)
    ensures Resolve([], Split(Slashed(n, s), '/')) == Resolve([], Split(s, '/'))
  {
    if n > 0 {
      var rest := Slashed(n - 1, s);
      assert Slashed(n, s)[1..] == rest;
      ResolveSlashes(n - 1, s);
      assert ([""] + Split(rest, '/'))[1..] == Split(rest, '/');
    }
  }

  lemma {:induction false} SlashedEnd(n: nat, s: string)
    requires s != ""
    ensures Slashed(n, s) != "" && Slashed(n, s)[|Slashed(n, s)| - 1] == s[|s| - 1]
  {
    if n > 0 {
      SlashedEnd(n - 1, s);
    }
  }

  /**
   With more than one slash in front a path is absolute, and refused unless it leads
   into the root all the same; with exactly three it is refused.
   */
  lemma SafeJoinAbsolute(root: Path, n: nat, s: string)
    requires n >= 2 && s != "" && s[0] != '/' && !Blank(s[|s| - 1])
    ensures
      var p := Resolve([], Split(s, '/'));
      SafeJoin(root, Slashed(n, s)) == if n != 3 && root <= p then Some(p) else None
  {
    hide SafeJoin, Split, Resolve, LeadingSlashes;
    var text, rest := Slashed(n, s), Slashed(n - 1, s);
    assert text[0] == '/' && text[1..] == rest;
    SlashedEnd(n, s);
    LeadingSlashesOf(n - 1, s);
    ResolveSlashes(n - 1, s);
    SafeJoinRooted(root, text);
  }

  /** What is left of an absolute path when its first slash is forgiven. */
  lemma SafeJoinRooted(root: Path, text: string)
    requires Trimmed(text) && text != "" && text[0] == '/' && LeadingSlashes(text[1..]) > 0
    ensures
      var p := Resolve([], Split(text[1..], '/'));
      SafeJoin(root, text) == if LeadingSlashes(text[1..]) != 2 && root <= p then Some(p) else None
  {
    hide Resolve, Split, StripLeft, StripRight;
    StripTrimmed(text);
  }

  lemma JoinStarts(names: seq<string>)
    requires names != [] && names[0] != ""
    ensures Join(names, '/') != "" && Join(names, '/')[0] == names[0][0]
  {
  }

  /** Names go under the root, with or without one slash in front. */
  lemma SafeJoinNames(root: Path, names: seq<string>)
    requires names != [] && Separable(names, '/') && forall i | 0 <= i < |names| :: IsName(names[i])
    requires Trimmed(Join(names, '/'))
    ensures SafeJoin(root, Join(names, '/')) == SafeJoin(root, "/" + Join(names, '/')) == Some(root + names)
  {
    hide SafeJoin;
    JoinStarts(names);
    SplitJoin(names, '/');
    ResolveNames(root, names);
    assert names[0][0] != '/';
    SafeJoinRelative(root, Join(names, '/'));
  }

  lemma ResolveOutside(root: Path, names: seq<string>)
    requires names != [] && root != [] && names[0] != root[|root| - 1]
    requires forall i | 0 <= i < |names| :: IsName(names[i])
    ensures !(root <= Resolve(root, [".."] + names))
  {
    var p := Resolve(root, [".."] + names);
    assert ([".."] + names)[1..] == names;
    ResolveNames(Parent(root), names);
    hide Resolve;
    assert p == Parent(root) + names && p[|root| - 1] == names[0];
  }

  /** A path that climbs out of the root and does not come back is refused. */
  lemma SafeJoinRefuses(root: Path, names: seq<string>)
    requires names != [] && Separable([".."] + names, '/') && forall i | 0 <= i < |names| :: IsName(names[i])
    requires Trimmed(Join([".."] + names, '/')) && root != [] && names[0] != root[|root| - 1]
    ensures SafeJoin(root, Join([".."] + names, '/')) == None
  {
    hide SafeJoin, Resolve, Trimmed, Join, Separable;
    ResolveOutside(root, names);
    var parts := [".."] + names;
    JoinStarts(parts);
    SplitJoin(parts, '/');
    SafeJoinRelative(root, Join(parts, '/'));
  }

  // ---- The plan ----

  predicate DirPath(rel: string) {
    rel != "" && rel[|rel| - 1] == '/'
  }

  /** A file offered for a directory path lands inside the new directory, under its own name. */
  function DataImage(rel: string, s: Source): Tree {
    if DirPath(rel) && [] in s.nodes && s.nodes[[]].File? then map[[] := Dir, [s.name] := s.nodes[[]]]
    else Image(s)
  }

  function ItemJob(dst: Option<Path>, nodes: Option<Tree>): Job {
    Job(dst, if dst.Some? && nodes.Some? then Some(Shift(dst.value, nodes.value)) else None)
  }

  function ModuleJob(l: Layout, rel: string): Job {
    ItemJob(SafeJoin(l.root, rel), if rel in l.moduleSources then Some(Image(l.moduleSources[rel])) else None)
  }

  function DataJob(l: Layout, rel: string): Job {
    ItemJob(SafeJoin(l.root, rel), if rel in l.dataSources then Some(DataImage(rel, l.dataSources[rel])) else None)
  }

  /** What the actions will do, item by item. */
  function PlanOf(l: Layout): Plan {
    Plan(l.root,
         seq(|l.modules|, i requires 0 <= i < |l.modules| => ModuleJob(l, l.modules[i])),
         seq(|l.data|, i requires 0 <= i < |l.data| => DataJob(l, l.data[i])),
         seq(|l.clean|, i requires 0 <= i < |l.clean| => SafeJoin(l.root, l.clean[i])))
  }

  lemma DataImageWellFormed(rel: string, s: Source)
    requires SourceOk(s)
    ensures WellFormed(DataImage(rel, s)) && [] in DataImage(rel, s)
  {
    ImageWellFormed(s);
  }

  lemma ItemJobOk(root: Path, dst: Option<Path>, nodes: Option<Tree>)
    requires dst.Some? ==> root <= dst.value
    requires nodes.Some? ==> WellFormed(nodes.value) && [] in nodes.value
    ensures JobOk(root, ItemJob(dst, nodes))
  {
    if dst.Some? && nodes.Some? {
      ShiftHangs(dst.value, nodes.value);
    }
  }

  /** Every plan made from a layout is one the actions are specified for. */
  lemma PlanOfOk(l: Layout)
    requires LayoutOk(l)
    ensures PlanOk(PlanOf(l))
  {
    var p := PlanOf(l);
    forall i | 0 <= i < |p.modules| ensures JobOk(p.root, p.modules[i]) {
      var rel := l.modules[i];
      if rel in l.moduleSources {
        ImageWellFormed(l.moduleSources[rel]);
      }
      var nodes := if rel in l.moduleSources then Some(Image(l.moduleSources[rel])) else None;
      ItemJobOk(l.root, SafeJoin(l.root, rel), nodes);
    }
    forall i | 0 <= i < |p.data| ensures JobOk(p.root, p.data[i]) {
      var rel := l.data[i];
      if rel in l.dataSources {
        DataImageWellFormed(rel, l.dataSources[rel]);
      }
      var nodes := if rel in l.dataSources then Some(DataImage(rel, l.dataSources[rel])) else None;
      ItemJobOk(l.root, SafeJoin(l.root, rel), nodes);
    }
  }

  /** The laws of update and install, for every layout a project file can give. */
  lemma LayoutLaws(t: Tree, l: Layout, p: Path)
    requires LayoutOk(l) && WellFormed(t) && l.root != []
    ensures
      var plan := PlanOf(l);
      var z, c := Update(t, plan), Cleaned(t, plan);
      && (z.ok <==> Fits(t, plan))
      && (z.ok ==> Lookup(z.tree, p) == AtData(t, plan, |plan.data|, p))
      && (z.ok ==> (Update(z.tree, plan) == z <==> Steady(plan)))
      && (z.ok && InModules(plan, p) ==> Lookup(z.tree, p) == Left(plan, p))
      && (Install(t, plan).ok ==> (Update(c, plan) == Install(t, plan) <==> Passable(c, plan)))
      && (Update(c, plan).ok ==> (Update(c, plan) == Install(t, plan) <==> Removable(t, plan)))
      && (p in t && !InModules(plan, p) ==> p in z.tree && z.tree[p] == t[p])
  {
    var plan := PlanOf(l);
    PlanOfOk(l);
    hide PlanOf, Update, Install, Fits, AtData, Steady, Passable, Removable;
    UpdateComesTo(t, plan, p);
    if Update(t, plan).ok {
      UpdateIdempotentIff(t, plan);
      if InModules(plan, p) {
        UpdateLeaves(t, plan, p);
      }
    }
    InstallIsCleanUpdate(t, plan);
    if p in t && !InModules(plan, p) {
      UpdateFrame(t, plan, p);
    }
  }

  // ---- A project whose second update fails ----

  /** A file `a/b` first, then a file `a` in place of its directory. */
  function CrossedLayout(): Layout {
    Layout(["r"], ["a/b", "a"], [], [],
           map["a/b" := Source("b", map[[] := File("1")]), "a" := Source("a", map[[] := File("2")])], map[])
  }

  lemma FileImage(name: string, n: Node, p: Path)
    ensures Shift(p, Image(Source(name, map[[] := n]))) == map[p := n]
  {
    var nodes := Image(Source(name, map[[] := n]));
    assert nodes == map[[] := n];
    forall q ensures q in Shift(p, nodes) <==> q == p {
      ShiftAt(p, nodes, q);
      assert p + [] == p;
    }
    ShiftAt(p, nodes, p);
  }

  lemma JoinOfA()
    ensures SafeJoin(["r"], "a") == Some(["r", "a"])
  {
    StripTrimmed("a");
    SplitPlain("a", '/');
    assert ["a"][1..] == [];
    assert ["r"] + ["a"] == ["r", "a"];
  }

  lemma JoinOfAB()
    ensures SafeJoin(["r"], "a/b") == Some(["r", "a", "b"])
  {
    StripTrimmed("a/b");
    assert "a/b" == Join(["a", "b"], '/');
    SplitJoin(["a", "b"], '/');
    assert ["a", "b"][1..] == ["b"] && ["b"][1..] == [];
    assert ["r"] + ["a"] == ["r", "a"] && ["r", "a"] + ["b"] == ["r", "a", "b"];
  }

  lemma FileModule(l: Layout, rel: string, name: string, n: Node, dst: Path)
    requires rel in l.moduleSources && l.moduleSources[rel] == Source(name, map[[] := n])
    requires SafeJoin(l.root, rel) == Some(dst)
    ensures ModuleJob(l, rel) == Job(Some(dst), Some(map[dst := n]))
  {
    hide SafeJoin, Shift, Image;
    FileImage(name, n, dst);
  }

  lemma CrossedSources()
    ensures
      var l := CrossedLayout();
      && LayoutOk(l) && "a/b" in l.moduleSources && "a" in l.moduleSources
      && l.moduleSources["a/b"] == Source("b", map[[] := File("1")])
      && l.moduleSources["a"] == Source("a", map[[] := File("2")])
  {
    assert |"a/b"| != |"a"|;
  }

  lemma CrossedPlan()
    ensures PlanOf(CrossedLayout()) == Crossed()
  {
    var l := CrossedLayout();
    CrossedSources();
    JoinOfA();
    JoinOfAB();
    hide SafeJoin, LayoutOk;
    FileModule(l, "a/b", "b", File("1"), ["r", "a", "b"]);
    FileModule(l, "a", "a", File("2"), ["r", "a"]);
    hide ModuleJob;
    assert PlanOf(l).modules == [ModuleJob(l, "a/b"), ModuleJob(l, "a")];
  }

  /** Updating twice is not updating once. */
  lemma UpdateTwiceFails()
    ensures
      var l, t := PlanOf(CrossedLayout()), EmptyRoot();
      LayoutOk(CrossedLayout()) && WellFormed(t) && Update(t, l).ok && !Update(Update(t, l).tree, l).ok
  {
    CrossedSources();
    CrossedPlan();
    CrossedOk();
    CrossedTwice();
    hide PlanOf, Update, Crossed, CrossedLayout, EmptyRoot, LayoutOk, WellFormed;
  }
}
