/**
 What a staged payload holds at every path, told from the sources of its items:
 which item's node is left where items overlap, and exactly when staging succeeds.
 */
module StagedFiles {
  import opened Text
  import opened FileTree
  import opened SteadyPlans
  import opened Installer
  import opened InstalledFiles
  import opened Staging

  // ---- The items, modules first ----

  ghost function Count(l: Layout): nat {
    |l.modules| + |l.data|
  }

  /** Where an item path of names leads, with or without a slash in front and behind. */
  lemma NamesStaged(base: Path, names: seq<string>)
    requires names != [] && Separable(names, '/') && forall i | 0 <= i < |names| :: IsName(names[i])
    requires Trimmed(Join(names, '/'))
    ensures
      var text := Join(names, '/');
      && StageDst(base, text) == StageDst(base, "/" + text) == Some(base + names)
      && StageDst(base, text + "/") == StageDst(base, "/" + text + "/") == Some(base + names)
  {
    var text := Join(names, '/');
    JoinStarts(names);
    JoinEndsWell(names);
    assert names[0][0] != '/';
    RelOfText(text);
    SplitJoin(names, '/');
    ResolveNames(base, names);
  }

  lemma {:induction false} JoinEndsWell(names: seq<string>)
    requires names != [] && names[|names| - 1] != "" && '/' !in names[|names| - 1]
    ensures Join(names, '/') != "" && Join(names, '/')[|Join(names, '/')| - 1] != '/'
  {
    if |names| > 1 {
      JoinEndsWell(names[1..]);
    }
  }

  lemma RelOfText(s: string)
    requires s != "" && Trimmed(s) && s[0] != '/' && s[|s| - 1] != '/'
    ensures StageRel(s) == StageRel("/" + s) == StageRel(s + "/") == StageRel("/" + s + "/") == s
  {
    hide Strip;
    assert Trimmed("/" + s) && Trimmed(s + "/") && Trimmed("/" + s + "/");
    StripTrimmed(s);
    StripTrimmed("/" + s);
    StripTrimmed(s + "/");
    StripTrimmed("/" + s + "/");
    assert ("/" + s)[1..] == s && ("/" + s + "/")[1..] == s + "/";
    assert (s + "/")[..|s|] == s;
  }

  /** Modules go to their real places, data to the defaults area. */
  ghost function PlaceOf(l: Layout, i: nat): Option<Path>
    requires i < Count(l)
  {
    if i < |l.modules| then StageDst(["opt", "buckyos"], l.modules[i])
    else StageDst(["opt", "buckyos", ".buckyos_installer_defaults"], l.data[i - |l.modules|])
  }

  ghost function SourceOf(l: Layout, i: nat): Option<Source>
    requires i < Count(l)
  {
    if i < |l.modules| then
      if l.modules[i] in l.moduleSources then Some(l.moduleSources[l.modules[i]]) else None
    else
      var rel := l.data[i - |l.modules|];
      if rel in l.dataSources then Some(l.dataSources[rel]) else None
  }

  /** What item `i` brings to `q`: what its source holds there, but for the ignored names. */
  ghost function Brought(l: Layout, i: nat, q: Path): Option<Node>
    requires i < Count(l)
  {
    var d, s := PlaceOf(l, i), SourceOf(l, i);
    if d.Some? && s.Some? && d.value <= q then Copied(s.value, q[|d.value|..]) else None
  }

  /** The name of the file that item `i` brings to `q`; at its place that is the name of its source. */
  ghost function NameAt(l: Layout, i: nat, q: Path): string
    requires i < Count(l)
  {
    if PlaceOf(l, i) == Some(q) || q == [] then (if SourceOf(l, i).Some? then SourceOf(l, i).value.name else "")
    else q[|q| - 1]
  }

  /** The file, if there is one, that lands at `q`, being brought to a directory above under the name of `q`. */
  ghost function Lander(q: Path, name: string, up: Option<Node>, there: Option<Node>): Option<Node> {
    if q != [] && q[|q| - 1] == name && IsFile(up) && there == Some(Dir) then up else None
  }

  /**
   What a copy leaves: what it brings, unless that is a file for a place where a
   directory is; or a file that lands there; or what was there; or a directory, if
   the copy needs one.
   */
  ghost function Settled(own: Option<Node>, before: Option<Node>, lands: Option<Node>, needed: bool): Option<Node> {
    if own.Some? && !(IsFile(own) && before == Some(Dir)) then own
    else if lands.Some? then lands
    else if before.Some? then before
    else if needed then Some(Dir)
    else None
  }

  /** What is at `q` after the first `n` items. */
  ghost function StagedAt(t: Tree, l: Layout, n: nat, q: Path): Option<Node>
    requires n <= Count(l)
    decreases n
  {
    if n == 0 then Lookup(t, q)
    else
      var i, p := n - 1, Parent(q);
      var lands := Lander(q, NameAt(l, i, p), Brought(l, i, p), StagedAt(t, l, i, p));
      var needed := PlaceOf(l, i).Some? && q < PlaceOf(l, i).value;
      Settled(Brought(l, i, q), StagedAt(t, l, i, q), lands, needed)
  }

  /** The item can be copied: it has a place and a source, and meets no node of the other kind. */
  ghost predicate ItemFits(t: Tree, l: Layout, i: nat)
    requires i < Count(l)
  {
    && PlaceOf(l, i).Some? && SourceOf(l, i).Some?
    && (forall q | q == [] || q < PlaceOf(l, i).value :: !IsFile(StagedAt(t, l, i, q)))
    && (forall q | Brought(l, i, q) == Some(Dir) :: !IsFile(StagedAt(t, l, i, q)))
    && (forall q | IsFile(Brought(l, i, q)) && StagedAt(t, l, i, q) == Some(Dir) ::
          StagedAt(t, l, i, q + [NameAt(l, i, q)]) != Some(Dir))
  }

  // ---- One copy ----

  ghost function OwnName(dst: Path, name: string, p: Path): string {
    if p == dst || p == [] then name else p[|p| - 1]
  }

  lemma UpToParent(dst: Path, q: Path)
    ensures q <= Parent(dst) <==> q == [] || q < dst
  {
    if dst != [] {
      ParentIsAbove(dst, q);
    }
  }

  /** What a merge leaves at `q`. */
  lemma MergeIs(t: Tree, dst: Path, name: string, image: Tree, q: Path)
    requires HangsAt(image, dst)
    ensures
      var p := Parent(q);
      var lands := Lander(q, OwnName(dst, name, p), Lookup(image, p), Lookup(t, p));
      Lookup(Merge(t, dst, name, image), q) == Settled(Lookup(image, q), Lookup(t, q), lands, q < dst)
  {
    MergeParts(t, dst, name, image, q);
    MakeDirsAt(t, Parent(dst), q);
    UpToParent(dst, q);
    LandedAt(t, dst, name, image, q);
    if q in image && q != [] && Parent(q) in image {
      NothingLands(image, dst, q);
    }
    assert dst in image && (q in image ==> dst <= q);
    hide Merge, MakeDirs, Landed, HangsAt, OwnName;
  }

  lemma MergeParts(t: Tree, dst: Path, name: string, image: Tree, q: Path)
    ensures
      var u, made := Merge(t, dst, name, image), MakeDirs(t, Parent(dst));
      Lookup(u, q) ==
        if q in Landed(t, dst, name, image) && Parent(q) in image then Some(image[Parent(q)])
        else if q in image && !Displaced(t, image, q) then Some(image[q])
        else Lookup(made, q)
  {
  }

  /** The places where displaced files land. */
  ghost function Landed(t: Tree, dst: Path, name: string, image: Tree): set<Path> {
    set p | p in image && Displaced(t, image, p) :: Landing(p, dst, name)
  }

  lemma LandedAt(t: Tree, dst: Path, name: string, image: Tree, q: Path)
    ensures q in Landed(t, dst, name, image) <==>
      && q != [] && Displaced(t, image, Parent(q))
      && q[|q| - 1] == OwnName(dst, name, Parent(q))
  {
    if q != [] {
      assert q == Parent(q) + [q[|q| - 1]];
    }
    forall p | p in image && Displaced(t, image, p) && q == Landing(p, dst, name) ensures Parent(q) == p {
    }
  }

  lemma NothingLands(image: Tree, dst: Path, q: Path)
    requires HangsAt(image, dst) && q in image && q != [] && Parent(q) in image
    ensures image[Parent(q)].Dir?
  {
    assert Above(Parent(q), q);
  }

  // ---- All of them ----

  lemma ItemIs(l: Layout, i: nat)
    requires i < Count(l)
    ensures
      var x := Items(l)[i];
      && x.dst == PlaceOf(l, i) && (Found(x) <==> PlaceOf(l, i).Some? && SourceOf(l, i).Some?)
      && (Found(x) ==> x.name == SourceOf(l, i).value.name)
      && (Found(x) ==> x.image == Some(Shift(PlaceOf(l, i).value, Image(SourceOf(l, i).value))))
  {
    hide StageDst, Shift, Image;
    if i < |l.modules| {
      assert Items(l)[i] == ItemOf(ROOT, l.modules[i], l.moduleSources);
    } else {
      assert Items(l)[i] == ItemOf(DEFAULTS, l.data[i - |l.modules|], l.dataSources);
    }
  }

  lemma ItemBrings(l: Layout, i: nat, q: Path)
    requires i < Count(l) && Found(Items(l)[i])
    ensures Lookup(Items(l)[i].image.value, q) == Brought(l, i, q)
    ensures OwnName(Items(l)[i].dst.value, Items(l)[i].name, q) == NameAt(l, i, q)
  {
    ItemIs(l, i);
    hide Items, PlaceOf, SourceOf, Image, Shift, Copied;
    var d, s := PlaceOf(l, i).value, SourceOf(l, i).value;
    ShiftAt(d, Image(s), q);
    if d <= q {
      ImageIs(s, q[|d|..]);
    }
  }

  /** The tree holds at every path what the first `n` items come to. */
  ghost predicate LooksStaged(t: Tree, l: Layout, n: nat, u: Tree)
    requires n <= Count(l)
  {
    forall q :: Lookup(u, q) == StagedAt(t, l, n, q)
  }

  lemma CopyLooksAt(t: Tree, l: Layout, i: nat, u: Tree, q: Path)
    requires i < Count(l) && Found(Items(l)[i]) && HangsAt(Items(l)[i].image.value, Items(l)[i].dst.value)
    requires Lookup(u, q) == StagedAt(t, l, i, q) && Lookup(u, Parent(q)) == StagedAt(t, l, i, Parent(q))
    ensures
      var x := Items(l)[i];
      Lookup(Merge(u, x.dst.value, x.name, x.image.value), q) == StagedAt(t, l, i + 1, q)
  {
    hide Items, Merge, Brought, NameAt, OwnName, PlaceOf, HangsAt, Lander, Settled;
    var x := Items(l)[i];
    ItemIs(l, i);
    MergeIs(u, x.dst.value, x.name, x.image.value, q);
    ItemBrings(l, i, q);
    ItemBrings(l, i, Parent(q));
  }

  lemma ItemHangsThere(l: Layout, i: nat)
    requires LayoutOk(l) && i < Count(l) && Found(Items(l)[i])
    ensures HangsAt(Items(l)[i].image.value, Items(l)[i].dst.value)
  {
    LayoutItemsOk(l);
  }

  lemma CopyLooks(t: Tree, l: Layout, i: nat, u: Tree)
    requires LayoutOk(l) && i < Count(l) && LooksStaged(t, l, i, u) && StageItem(u, Items(l)[i]).Some?
    ensures LooksStaged(t, l, i + 1, StageItem(u, Items(l)[i]).value)
  {
    hide Items, Merge, StagedAt, LayoutOk, HangsAt;
    var x := Items(l)[i];
    ItemHangsThere(l, i);
    forall q ensures Lookup(Merge(u, x.dst.value, x.name, x.image.value), q) == StagedAt(t, l, i + 1, q) {
      CopyLooksAt(t, l, i, u, q);
    }
  }

  // ---- When staging succeeds ----

  lemma DirsFit(u: Tree, dst: Path)
    ensures CanMakeDirs(u, Parent(dst)) <==> forall q | q == [] || q < dst :: !IsFile(Lookup(u, q))
  {
    forall q | q in u ensures q <= Parent(dst) <==> q == [] || q < dst {
      UpToParent(dst, q);
    }
    if forall q | q == [] || q < dst :: !IsFile(Lookup(u, q)) {
      forall q | q in u && q <= Parent(dst) ensures u[q].Dir? {
        assert !IsFile(Lookup(u, q));
      }
    }
  }

  lemma KindsFit(u: Tree, image: Tree)
    ensures (forall p | p in image && p in u :: image[p].Dir? ==> u[p].Dir?) <==>
      forall q | Lookup(image, q) == Some(Dir) :: !IsFile(Lookup(u, q))
  {
    if forall q | Lookup(image, q) == Some(Dir) :: !IsFile(Lookup(u, q)) {
      forall p | p in image && p in u && image[p].Dir? ensures u[p].Dir? {
        assert Lookup(image, p) == Some(Dir);
      }
    }
  }

  /** The file that lands beside `q`, if one does, meets no directory. */
  ghost predicate LandsWell(u: Tree, dst: Path, name: string, image: Tree, q: Path) {
    IsFile(Lookup(image, q)) && Lookup(u, q) == Some(Dir) ==> Lookup(u, q + [OwnName(dst, name, q)]) != Some(Dir)
  }

  lemma LandingsFit(u: Tree, dst: Path, name: string, image: Tree)
    ensures
      (forall p | p in image && Displaced(u, image, p) && Landing(p, dst, name) in u :: u[Landing(p, dst, name)].File?)
        <==> forall q :: LandsWell(u, dst, name, image, q)
  {
    forall q ensures Landing(q, dst, name) == q + [OwnName(dst, name, q)] {
    }
    if forall q :: LandsWell(u, dst, name, image, q) {
      forall p | p in image && Displaced(u, image, p) && Landing(p, dst, name) in u
        ensures u[Landing(p, dst, name)].File?
      {
        assert LandsWell(u, dst, name, image, p);
      }
    }
  }

  lemma LandsWellIff(t: Tree, l: Layout, i: nat, u: Tree, q: Path)
    requires i < Count(l) && LooksStaged(t, l, i, u) && Found(Items(l)[i])
    ensures
      var x := Items(l)[i];
      LandsWell(u, x.dst.value, x.name, x.image.value, q) <==>
        (IsFile(Brought(l, i, q)) && StagedAt(t, l, i, q) == Some(Dir) ==>
          StagedAt(t, l, i, q + [NameAt(l, i, q)]) != Some(Dir))
  {
    hide Items, StagedAt, Brought, NameAt, OwnName, Lookup;
    ItemBrings(l, i, q);
    assert Lookup(u, q) == StagedAt(t, l, i, q);
  }

  lemma ItemFitsIff(t: Tree, l: Layout, i: nat, u: Tree)
    requires i < Count(l) && LooksStaged(t, l, i, u)
    ensures StageItem(u, Items(l)[i]).Some? <==> ItemFits(t, l, i)
  {
    hide Items, StagedAt, PlaceOf, SourceOf, Brought, NameAt, OwnName, Landing, Displaced, CanMakeDirs, Lookup;
    hide LandsWell;
    var x := Items(l)[i];
    ItemIs(l, i);
    if Found(x) {
      DirsFit(u, x.dst.value);
      KindsFit(u, x.image.value);
      LandingsFit(u, x.dst.value, x.name, x.image.value);
      forall q
        ensures Lookup(u, q) == StagedAt(t, l, i, q) && Lookup(x.image.value, q) == Brought(l, i, q)
        ensures LandsWell(u, x.dst.value, x.name, x.image.value, q) <==>
          (IsFile(Brought(l, i, q)) && StagedAt(t, l, i, q) == Some(Dir) ==>
            StagedAt(t, l, i, q + [NameAt(l, i, q)]) != Some(Dir))
      {
        ItemBrings(l, i, q);
        LandsWellIff(t, l, i, u, q);
      }
    }
  }

  ghost predicate AllFit(t: Tree, l: Layout, n: nat)
    requires n <= Count(l)
  {
    forall i | 0 <= i < n :: ItemFits(t, l, i)
  }

  lemma {:induction false} CopiesComeTo(t: Tree, l: Layout, n: nat)
    requires LayoutOk(l) && n <= Count(l)
    ensures Fold(StageItem, t, Items(l), n).Some? <==> AllFit(t, l, n)
    ensures Fold(StageItem, t, Items(l), n).Some? ==> LooksStaged(t, l, n, Fold(StageItem, t, Items(l), n).value)
  {
    hide Items, StageItem, ItemFits, LayoutOk;
    if n > 0 {
      hide StagedAt;
      CopiesComeTo(t, l, n - 1);
      assert AllFit(t, l, n) <==> AllFit(t, l, n - 1) && ItemFits(t, l, n - 1);
      var o := Fold(StageItem, t, Items(l), n - 1);
      if o.Some? {
        hide LooksStaged;
        FoldStep(StageItem, t, Items(l), n - 1, o.value);
        ItemFitsIff(t, l, n - 1, o.value);
        if ItemFits(t, l, n - 1) {
          CopyLooks(t, l, n - 1, o.value);
        }
      }
    }
  }

  /**
   Staging succeeds exactly if every item, in turn, can be copied; and then the
   sources say what the payload holds at every path.
   */
  lemma StagingComesTo(t: Tree, l: Layout, q: Path)
    requires LayoutOk(l)
    ensures Stage(t, l).Some? <==> AllFit(t, l, Count(l))
    ensures Stage(t, l).Some? ==> Lookup(Stage(t, l).value, q) == StagedAt(t, l, Count(l), q)
  {
    hide StagedAt, Stage, StageItem, Items, LayoutOk, Lookup, AllFit, Fold;
    StageIsAll(t, l);
    CopiesComeTo(t, l, Count(l));
  }

  // ---- Items apart ----

  /** Item `k` leads neither above, nor to, nor under `q`. */
  ghost predicate Aside(l: Layout, k: nat, q: Path)
    requires k < Count(l)
  {
    PlaceOf(l, k).Some? ==> !Comparable(PlaceOf(l, k).value, q)
  }

  lemma UnderParent(d: Path, q: Path)
    ensures d <= Parent(q) ==> d <= q
  {
  }

  lemma NothingBrought(l: Layout, k: nat, q: Path)
    requires k < Count(l) && (PlaceOf(l, k).Some? ==> !(PlaceOf(l, k).value <= q))
    ensures Brought(l, k, q).None? && Brought(l, k, Parent(q)).None?
  {
    hide PlaceOf, Copied;
    if PlaceOf(l, k).Some? {
      UnderParent(PlaceOf(l, k).value, q);
    }
  }

  lemma {:induction false} PassedBy(t: Tree, l: Layout, m: nat, n: nat, q: Path)
    requires m <= n <= Count(l) && forall k | m <= k < n :: Aside(l, k, q)
    ensures StagedAt(t, l, n, q) == StagedAt(t, l, m, q)
  {
    hide Brought, PlaceOf, NameAt;
    if m < n {
      PassedBy(t, l, m, n - 1, q);
      assert Aside(l, n - 1, q);
      NothingBrought(l, n - 1, q);
    }
  }

  /** Items aside of `d` are aside of everything under it. */
  lemma AsideBelow(l: Layout, i: nat, d: Path, q: Path)
    requires d <= q && forall k | 0 <= k < Count(l) && k != i :: Aside(l, k, d)
    ensures forall k | 0 <= k < Count(l) && k != i :: Aside(l, k, q)
  {
    hide PlaceOf;
    forall k | 0 <= k < Count(l) && k != i ensures Aside(l, k, q) {
      assert Aside(l, k, d);
      if PlaceOf(l, k).Some? {
        CompareThrough(PlaceOf(l, k).value, d, q);
      }
    }
  }

  lemma NothingYet(t: Tree, l: Layout, i: nat, d: Path, q: Path)
    requires i < Count(l) && d <= q && q !in t && forall k | 0 <= k < Count(l) && k != i :: Aside(l, k, d)
    ensures StagedAt(t, l, i, q).None?
  {
    hide PlaceOf, Aside;
    AsideBelow(l, i, d, q);
    PassedBy(t, l, 0, i, q);
  }

  /** An item that no other meets is staged with all of its source, and nothing else, at its place. */
  lemma ItemStaged(t: Tree, l: Layout, i: nat, d: Path, r: Path)
    requires LayoutOk(l) && Stage(t, l).Some? && i < Count(l) && PlaceOf(l, i) == Some(d)
    requires forall k | 0 <= k < Count(l) && k != i :: Aside(l, k, d)
    requires forall q | d <= q :: q !in t
    ensures SourceOf(l, i).Some?
    ensures Lookup(Stage(t, l).value, d + r) == Copied(SourceOf(l, i).value, r)
  {
    var q := d + r;
    hide Stage, StagedAt, Copied, LayoutOk, PlaceOf, SourceOf;
    StagingComesTo(t, l, q);
    assert ItemFits(t, l, i);
    hide AllFit, ItemFits;
    assert Brought(l, i, q) == Copied(SourceOf(l, i).value, r) by {
      assert q[|d|..] == r;
    }
    hide Brought, Lookup;
    AsideBelow(l, i, d, q);
    PassedBy(t, l, i + 1, Count(l), q);
    NothingYet(t, l, i, d, q);
    if d < q {
      assert d <= Parent(q);
      NothingYet(t, l, i, d, Parent(q));
    }
    FirstCopy(t, l, i, d, q);
  }

  /** The copy of an item to where nothing is. */
  lemma FirstCopy(t: Tree, l: Layout, i: nat, d: Path, q: Path)
    requires i < Count(l) && PlaceOf(l, i) == Some(d) && d <= q && StagedAt(t, l, i, q).None?
    requires d < q ==> StagedAt(t, l, i, Parent(q)).None?
    ensures StagedAt(t, l, i + 1, q) == Brought(l, i, q)
  {
    hide Copied, PlaceOf, SourceOf;
    if q == d {
      assert !(d <= Parent(q)) || q == [];
    }
  }

  /** Away from the places of all items a payload holds what it held, and the directories above those places. */
  lemma {:induction false} StagedElsewhere(t: Tree, l: Layout, n: nat, q: Path)
    requires n <= Count(l) && forall k | 0 <= k < n && PlaceOf(l, k).Some? :: !(PlaceOf(l, k).value <= q)
    ensures StagedAt(t, l, n, q) ==
      if q in t then Some(t[q])
      else if exists k :: 0 <= k < n && PlaceOf(l, k).Some? && q < PlaceOf(l, k).value then Some(Dir)
      else None
  {
    hide Brought, PlaceOf, NameAt;
    if n > 0 {
      StagedElsewhere(t, l, n - 1, q);
      NothingBrought(l, n - 1, q);
    }
  }
}
