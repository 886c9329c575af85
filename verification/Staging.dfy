/**
 Building the payload of a package: modules are copied to their real places
 under `opt/buckyos`, data to the defaults area beside them. Copies merge into
 what is there.
 */
module Staging {
  import opened Text
  import opened FileTree
  import opened Installer
  import opened PayloadPaths

  const DEFAULTS_DIR := ".buckyos_installer_defaults"
  const ROOT: Path := ["opt", "buckyos"]
  const DEFAULTS: Path := ["opt", "buckyos", DEFAULTS_DIR]

  /** An item path as staging reads it: one leading slash dropped, all trailing ones. */
  function StageRel(rel: string): string {
    var s := Strip(rel);
    StripRight(if s != "" && s[0] == '/' then s[1..] else s, IsSlash)
  }

  /** Where an item goes; what is still absolute would leave the payload. */
  function StageDst(base: Path, rel: string): Option<Path> {
    var s := StageRel(rel);
    if s != "" && s[0] == '/' then None else Some(Resolve(base, Split(s, '/')))
  }

  // ---- Copying into what is there ----

  /** A file to be written where a directory stands. */
  predicate Displaced(t: Tree, image: Tree, p: Path) {
    p in image && image[p].File? && p in t && t[p].Dir?
  }

  /** Such a file lands inside that directory, under its own name. */
  function Landing(p: Path, dst: Path, name: string): Path {
    p + [if p == dst || p == [] then name else p[|p| - 1]]
  }

  /** The copy succeeds: no directory onto a file, no file onto a directory. */
  predicate Fits(t: Tree, dst: Path, name: string, image: Tree) {
    && CanMakeDirs(t, Parent(dst))
    && (forall p | p in image && p in t :: image[p].Dir? ==> t[p].Dir?)
    && (forall p | p in image && Displaced(t, image, p) && Landing(p, dst, name) in t :: t[Landing(p, dst, name)].File?)
  }

  /** The tree after copying the image, which hangs at `dst`. */
  function Merge(t: Tree, dst: Path, name: string, image: Tree): Tree {
    MakeDirs(t, Parent(dst))
    + (map p | p in image && !Displaced(t, image, p) :: image[p])
    + (map q | q in (set p | p in image && Displaced(t, image, p) :: Landing(p, dst, name)) && Parent(q) in image
         :: image[Parent(q)])
  }

  /** An item: where it goes, the name its source has, and the nodes to be copied, in place. */
  datatype Item = Item(dst: Option<Path>, name: string, image: Option<Tree>)

  predicate Found(i: Item) {
    i.dst.Some? && i.image.Some?
  }

  function StageItem(t: Tree, i: Item): Option<Tree> {
    if Found(i) && Fits(t, i.dst.value, i.name, i.image.value) then Some(Merge(t, i.dst.value, i.name, i.image.value))
    else None
  }

  /** Copies items one after the other with `f`, stopping at the first failure. */
  function Fold(f: (Tree, Item) -> Option<Tree>, t: Tree, items: seq<Item>, n: nat): Option<Tree>
    requires n <= |items|
  {
    if n == 0 then Some(t)
    else
      var o := Fold(f, t, items, n - 1);
      if o.Some? then f(o.value, items[n - 1]) else None
  }

  function ItemOf(base: Path, rel: string, sources: map<string, Source>): Item {
    var dst := StageDst(base, rel);
    if dst.None? || rel !in sources then Item(dst, "", None)
    else Item(dst, sources[rel].name, Some(Shift(dst.value, Image(sources[rel]))))
  }

  function ItemsOf(base: Path, rels: seq<string>, sources: map<string, Source>): (items: seq<Item>)
    ensures |items| == |rels|
  {
    seq(|rels|, i requires 0 <= i < |rels| => ItemOf(base, rels[i], sources))
  }

  function ModuleItems(l: Layout): seq<Item> {
    ItemsOf(ROOT, l.modules, l.moduleSources)
  }

  function DataItems(l: Layout): seq<Item> {
    ItemsOf(DEFAULTS, l.data, l.dataSources)
  }

  function EmptyPayload(): Tree {
    map[[] := Dir, ["opt"] := Dir, ROOT := Dir]
  }

  function StageAll(t: Tree, items: seq<Item>): Option<Tree> {
    Fold(StageItem, t, items, |items|)
  }

  /** `_stage_buckyos_app_root`: modules to the root, then data to the defaults area. */
  function Stage(t: Tree, l: Layout): Option<Tree> {
    var o := StageAll(t, ModuleItems(l));
    if o.Some? then StageAll(o.value, DataItems(l)) else None
  }

  // ---- Copying one after the other ----

  lemma FoldStep(f: (Tree, Item) -> Option<Tree>, t: Tree, items: seq<Item>, n: nat, u: Tree)
    requires n < |items| && Fold(f, t, items, n) == Some(u)
    ensures Fold(f, t, items, n + 1) == f(u, items[n])
  {
  }

  lemma {:induction false} FoldStops(f: (Tree, Item) -> Option<Tree>, t: Tree, items: seq<Item>, n: nat)
    requires n <= |items| && Fold(f, t, items, n).None?
    ensures Fold(f, t, items, |items|).None?
    decreases |items| - n
  {
    if n < |items| {
      FoldStops(f, t, items, n + 1);
    }
  }

  lemma {:induction false} FoldPrefix(f: (Tree, Item) -> Option<Tree>, t: Tree, a: seq<Item>, b: seq<Item>, n: nat)
    requires n <= |a|
    ensures Fold(f, t, a + b, n) == Fold(f, t, a, n)
  {
    if n > 0 {
      FoldPrefix(f, t, a, b, n - 1);
    }
  }

  lemma {:induction false} FoldConcat(f: (Tree, Item) -> Option<Tree>, t: Tree, a: seq<Item>, b: seq<Item>, n: nat)
    requires n <= |b|
    ensures Fold(f, t, a + b, |a| + n) ==
      var o := Fold(f, t, a, |a|); if o.Some? then Fold(f, o.value, b, n) else None
  {
    if n > 0 {
      FoldConcat(f, t, a, b, n - 1);
    } else {
      FoldPrefix(f, t, a, b, |a|);
    }
  }

  /** What every successful copy keeps, all of them together keep. */
  lemma {:induction false} FoldKeeps(
    f: (Tree, Item) -> Option<Tree>, t: Tree, items: seq<Item>, n: nat, inv: (Tree, nat) -> bool)
    requires n <= |items| && inv(t, 0) && Fold(f, t, items, n).Some?
    requires forall u, k: nat | k < |items| && inv(u, k) && f(u, items[k]).Some? :: inv(f(u, items[k]).value, k + 1)
    ensures inv(Fold(f, t, items, n).value, n)
  {
    if n > 0 {
      FoldKeeps(f, t, items, n - 1, inv);
    }
  }

  /** If every copy keeps a fact and succeeds when it holds, they all succeed. */
  lemma {:induction false} FoldSucceeds(
    f: (Tree, Item) -> Option<Tree>, t: Tree, items: seq<Item>, n: nat, inv: (Tree, nat) -> bool)
    requires n <= |items| && inv(t, 0)
    requires forall u, k: nat | k < |items| && inv(u, k) :: f(u, items[k]).Some? && inv(f(u, items[k]).value, k + 1)
    ensures Fold(f, t, items, n).Some? && inv(Fold(f, t, items, n).value, n)
  {
    if n > 0 {
      FoldSucceeds(f, t, items, n - 1, inv);
    }
  }

  class Payload {
    var tree: Tree

    constructor ()
      ensures tree == EmptyPayload()
    {
      tree := EmptyPayload();
    }

    /** Copies one item, or fails; after a failure nothing is promised of the tree. */
    method CopyItem(i: Item) returns (ok: bool)
      modifies this
      ensures StageItem(old(tree), i) == if ok then Some(tree) else None
    {
      if !Found(i) || !Fits(tree, i.dst.value, i.name, i.image.value) {
        return false;
      }
      tree := Merge(tree, i.dst.value, i.name, i.image.value);
      return true;
    }

    method CopyItems(items: seq<Item>) returns (ok: bool)
      modifies this
      ensures StageAll(old(tree), items) == if ok then Some(tree) else None
    {
      hide StageItem;
      ghost var start := tree;
      for i := 0 to |items|
        invariant Fold(StageItem, start, items, i) == Some(tree)
      {
        FoldStep(StageItem, start, items, i, tree);
        ok := CopyItem(items[i]);
        if !ok {
          FoldStops(StageItem, start, items, i + 1);
          return;
        }
      }
      return true;
    }

    method StageAppRoot(l: Layout) returns (ok: bool)
      modifies this
      ensures Stage(old(tree), l) == if ok then Some(tree) else None
    {
      ok := CopyItems(ModuleItems(l));
      if ok {
        ok := CopyItems(DataItems(l));
      }
    }
  }

  // ---- Where everything in a payload comes from ----

  ghost predicate ItemsOk(items: seq<Item>) {
    forall i | 0 <= i < |items| && Found(items[i]) :: HangsAt(items[i].image.value, items[i].dst.value)
  }

  ghost predicate Comparable(p: Path, q: Path) {
    p <= q || q <= p
  }

  /** `q` lies above, at or under the destination of one of the first `n` items. */
  ghost predicate Tied(items: seq<Item>, n: nat, q: Path) {
    exists i | 0 <= i < n && i < |items| :: items[i].dst.Some? && Comparable(items[i].dst.value, q)
  }

  ghost predicate Owned(items: seq<Item>, n: nat, q: Path) {
    exists i | 0 <= i < n && i < |items| :: items[i].dst.Some? && items[i].dst.value <= q
  }

  /** The path and everything above it is in the tree. */
  ghost predicate Rooted(t: Tree, dst: Path) {
    forall q | q <= dst :: q in t
  }

  /** Every node is tied to an item, every file owned by one, and every item is there, with what is above it. */
  ghost predicate Anchored(t: Tree, items: seq<Item>, n: nat) {
    && (forall q | q in t :: q <= ROOT || Tied(items, n, q))
    && (forall q | q in t && t[q].File? :: Owned(items, n, q))
    && (forall i | 0 <= i < n && i < |items| :: items[i].dst.Some? && Rooted(t, items[i].dst.value))
  }

  lemma ItemHangs(base: Path, rel: string, sources: map<string, Source>)
    requires rel in sources ==> SourceOk(sources[rel])
    ensures var i := ItemOf(base, rel, sources); Found(i) ==> HangsAt(i.image.value, i.dst.value)
  {
    var dst := StageDst(base, rel);
    if dst.Some? && rel in sources {
      ImageWellFormed(sources[rel]);
      ShiftHangs(dst.value, Image(sources[rel]));
    }
  }

  /** What a merge adds lies above, at or under its destination; only what is at or under can be a file. */
  lemma MergeAt(t: Tree, dst: Path, name: string, image: Tree, q: Path)
    requires HangsAt(image, dst)
    ensures q in Merge(t, dst, name, image) ==> q in t || Comparable(dst, q)
    ensures q in Merge(t, dst, name, image) && !(dst <= q) ==>
      Merge(t, dst, name, image)[q] == if q in t then t[q] else Dir
    ensures q in t ==> q in Merge(t, dst, name, image)
    ensures q <= dst ==> q in Merge(t, dst, name, image)
  {
    MakeDirsAt(t, Parent(dst), q);
    if q <= Parent(dst) && dst != [] {
      ParentIsAbove(dst, q);
    }
    assert Displaced(t, image, dst) ==> dst in t;
    var landed := set p | p in image && Displaced(t, image, p) :: Landing(p, dst, name);
    if q in landed {
      var p :| p in image && Displaced(t, image, p) && q == Landing(p, dst, name);
      assert dst <= p && p <= q;
      assert dst <= q;
    }
    if q <= dst && q != dst {
      ParentIsAbove(dst, q);
    }
  }

  /** `u` is `t` with nodes added above, at and under `dst`, files only at or under it. */
  ghost predicate Adds(t: Tree, u: Tree, dst: Path) {
    && Rooted(u, dst)
    && (forall q | q in t :: q in u)
    && (forall q | q in u :: q in t || Comparable(dst, q))
    && (forall q | q in u && !(dst <= q) :: u[q] == if q in t then t[q] else Dir)
  }

  lemma StageItemAdds(t: Tree, i: Item)
    requires StageItem(t, i).Some? && HangsAt(i.image.value, i.dst.value)
    ensures Adds(t, StageItem(t, i).value, i.dst.value)
  {
    forall q
      ensures var u := Merge(t, i.dst.value, i.name, i.image.value);
        && (q in t ==> q in u)
        && (q in u ==> q in t || Comparable(i.dst.value, q))
        && (q in u && !(i.dst.value <= q) ==> u[q] == if q in t then t[q] else Dir)
        && (q <= i.dst.value ==> q in u)
    {
      MergeAt(t, i.dst.value, i.name, i.image.value, q);
    }
  }

  lemma TiedGrows(items: seq<Item>, n: nat, q: Path)
    requires n < |items|
    ensures Tied(items, n, q) ==> Tied(items, n + 1, q)
    ensures Owned(items, n, q) ==> Owned(items, n + 1, q)
    ensures items[n].dst.Some? && Comparable(items[n].dst.value, q) ==> Tied(items, n + 1, q)
    ensures items[n].dst.Some? && items[n].dst.value <= q ==> Owned(items, n + 1, q)
  {
  }

  lemma AddsAnchored(t: Tree, u: Tree, items: seq<Item>, n: nat)
    requires n < |items| && Anchored(t, items, n) && items[n].dst.Some? && Adds(t, u, items[n].dst.value)
    ensures Anchored(u, items, n + 1)
  {
    forall q | q in u ensures q <= ROOT || Tied(items, n + 1, q) {
      TiedGrows(items, n, q);
    }
    forall q | q in u && u[q].File? ensures Owned(items, n + 1, q) {
      TiedGrows(items, n, q);
    }
  }

  lemma ItemAnchored(t: Tree, items: seq<Item>, n: nat)
    requires ItemsOk(items) && n < |items| && Anchored(t, items, n) && StageItem(t, items[n]).Some?
    ensures Anchored(StageItem(t, items[n]).value, items, n + 1)
  {
    StageItemAdds(t, items[n]);
    AddsAnchored(t, StageItem(t, items[n]).value, items, n);
  }

  /** The items in the order they are staged. */
  function Items(l: Layout): (items: seq<Item>)
    ensures |items| == |l.modules| + |l.data|
  {
    ModuleItems(l) + DataItems(l)
  }

  lemma StageIsAll(t: Tree, l: Layout)
    ensures Stage(t, l) == StageAll(t, Items(l))
  {
    FoldConcat(StageItem, t, ModuleItems(l), DataItems(l), |DataItems(l)|);
  }

  lemma LayoutItemsOk(l: Layout)
    requires LayoutOk(l)
    ensures ItemsOk(Items(l))
  {
    var items := Items(l);
    forall i | 0 <= i < |items| && Found(items[i]) ensures HangsAt(items[i].image.value, items[i].dst.value) {
      if i < |l.modules| {
        ItemHangs(ROOT, l.modules[i], l.moduleSources);
      } else {
        ItemHangs(DEFAULTS, l.data[i - |l.modules|], l.dataSources);
      }
    }
  }

  lemma ItemsAnchored(t: Tree, items: seq<Item>)
    requires ItemsOk(items) && Anchored(t, items, 0) && StageAll(t, items).Some?
    ensures Anchored(StageAll(t, items).value, items, |items|)
  {
    forall u, n: nat | n < |items| && Anchored(u, items, n) && StageItem(u, items[n]).Some?
      ensures Anchored(StageItem(u, items[n]).value, items, n + 1)
    {
      ItemAnchored(u, items, n);
    }
    FoldKeeps(StageItem, t, items, |items|, (u: Tree, n: nat) => Anchored(u, items, n));
  }

  lemma EmptyAnchored(items: seq<Item>)
    ensures Anchored(EmptyPayload(), items, 0)
  {
  }

  /** Everything in a staged payload comes from an item, and every item is there. */
  lemma StagedAnchored(t: Tree, l: Layout)
    requires LayoutOk(l) && Anchored(t, Items(l), 0) && Stage(t, l).Some?
    ensures Anchored(Stage(t, l).value, Items(l), |Items(l)|)
  {
    StageIsAll(t, l);
    LayoutItemsOk(l);
    ItemsAnchored(t, Items(l));
  }

  // ---- When staging succeeds ----

  ghost predicate ItemsApart(items: seq<Item>) {
    forall i, k | 0 <= i < |items| && 0 <= k < |items| && i != k && items[i].dst.Some? && items[k].dst.Some? ::
      !Comparable(items[i].dst.value, items[k].dst.value)
  }

  lemma CompareThrough(a: Path, b: Path, q: Path)
    ensures b <= q && Comparable(a, q) ==> Comparable(a, b)
  {
    if b <= q && a <= q {
      PrefixesCompare(a, b, q);
    }
  }

  /** Nothing is where the next item goes, and no file above it. */
  lemma NextIsFree(t: Tree, items: seq<Item>, n: nat, q: Path)
    requires n < |items| && Anchored(t, items, n) && ItemsApart(items) && Found(items[n])
    requires ROOT < items[n].dst.value && q in t
    ensures !(items[n].dst.value <= q)
    ensures q <= items[n].dst.value ==> t[q].Dir?
  {
    forall i | 0 <= i < n && items[i].dst.Some? ensures items[n].dst.value <= q ==> !Comparable(items[i].dst.value, q) {
      CompareThrough(items[i].dst.value, items[n].dst.value, q);
    }
  }

  lemma NextSucceeds(t: Tree, items: seq<Item>, n: nat)
    requires n < |items| && Anchored(t, items, n) && ItemsApart(items) && Found(items[n]) && ItemsOk(items)
    requires ROOT < items[n].dst.value
    ensures StageItem(t, items[n]).Some?
  {
    var dst := items[n].dst.value;
    forall q | q in t ensures !(dst <= q) && (q <= dst ==> t[q].Dir?) {
      NextIsFree(t, items, n, q);
    }
    forall q | q in t && q <= Parent(dst) ensures t[q].Dir? {
      ParentIsAbove(dst, q);
    }
  }

  lemma AllSucceed(t: Tree, items: seq<Item>)
    requires ItemsOk(items) && ItemsApart(items) && Anchored(t, items, 0)
    requires forall i | 0 <= i < |items| :: Found(items[i]) && ROOT < items[i].dst.value
    ensures StageAll(t, items).Some?
  {
    forall u, n: nat | n < |items| && Anchored(u, items, n)
      ensures StageItem(u, items[n]).Some? && Anchored(StageItem(u, items[n]).value, items, n + 1)
    {
      NextSucceeds(u, items, n);
      ItemAnchored(u, items, n);
    }
    FoldSucceeds(StageItem, t, items, |items|, (u: Tree, n: nat) => Anchored(u, items, n));
  }
}
