/**
 Builder and verifier: which payloads staged from a layout pass the contract that
 the verifier derives from the same layout.
 */
module PayloadTheorems {
  import opened Text
  import opened FileTree
  import opened Installer
  import opened PayloadPaths
  import opened PathText
  import opened Staging
  import opened PayloadVerifier
  import opened PayloadReport

  /** Plain item paths; no data path meets a module path or enters the defaults area. */
  ghost predicate Placeable(l: Layout) {
    && LayoutOk(l) && PlainLayout(l)
    && (forall d | d in l.data :: RelSegments(d)[0] != DEFAULTS_DIR)
    && (forall m, d | m in l.modules && d in l.data :: !Comparable(RelSegments(m), RelSegments(d)))
  }

  /** The paths of a tree as the verifier is given them: every node below the top, in any order. */
  ghost predicate Lists(paths: seq<string>, t: Tree) {
    && (forall s | s in paths :: exists q | q in t :: q != [] && s == Join(q, '/'))
    && (forall q | q in t && q != [] :: Join(q, '/') in paths)
  }

  // ---- No path is undeclared ----

  /** What lies above a place is read, if not as itself, as something else above that place. */
  lemma AboveIsRead(l: Layout, systemd: bool, i: nat, q: Path)
    requires PlainLayout(l) && i < |Items(l)| && q != [] && q < ItemDst(l, i)
    ensures ReadAbove(l, systemd, Read(Join(q, '/')))
  {
    ItemDeclared(l, i);
    PrefixIsProper(q, ItemDst(l, i));
    ReadText(q);
    BluntOnce(q);
    hide ProperPath, Join, Read, PlainLayout;
    if NormalPath(Blunt(q)) {
      BluntSolid(Blunt(q));
      assert AbovePlace(l, systemd, q);
    } else {
      var shorter := q[..|q| - 1];
      assert shorter < ItemDst(l, i);
      assert AbovePlace(l, systemd, shorter) && shorter != [];
    }
  }

  lemma TopIsRead(l: Layout, systemd: bool, q: Path)
    requires q != [] && q <= ROOT
    ensures ReadAbove(l, systemd, Read(Join(q, '/'))) && Read(Join(q, '/')) == q
  {
    assert q == ["opt"] || q == ROOT;
    Constants();
    ReadOfText(q);
    BluntSolid(q);
    assert AbovePlace(l, systemd, q);
  }

  /** Every path of a staged payload is declared. */
  lemma StagedDeclared(t: Tree, l: Layout, q: Path, systemd: bool)
    requires PlainLayout(l) && Anchored(t, Items(l), |Items(l)|) && q in t && q != []
    ensures Declared(l, systemd, Join(q, '/'))
  {
    hide Read, Normalize, Join, ReadAbove, PlainLayout, NormalPath;
    if q <= ROOT {
      TopIsRead(l, systemd, q);
    } else {
      var items := Items(l);
      var i :| 0 <= i < |items| && items[i].dst.Some? && Comparable(items[i].dst.value, q);
      DstOfItem(l, i);
      if ItemDst(l, i) <= q {
        ItemDeclared(l, i);
        ReadUnder(q, ItemDst(l, i));
      } else {
        AboveIsRead(l, systemd, i, q);
      }
    }
  }

  // ---- When no data path is at its real place ----

  /** No item goes above, to, or under the real place of a data path. */
  lemma ItemAway(l: Layout, i: nat, d: string)
    requires Placeable(l) && i < |Items(l)| && d in l.data
    ensures !Comparable(ItemDst(l, i), ROOT + RelSegments(d))
  {
    hide RelSegments, LayoutOk, PlainLayout;
    var place := RelSegments(d);
    if i < |l.modules| {
      var m := l.modules[i];
      assert m in l.modules;
      CompareBelow(ROOT, RelSegments(m), place);
    } else {
      var rest := [DEFAULTS_DIR] + RelSegments(l.data[i - |l.modules|]);
      assert ItemDst(l, i) == ROOT + rest;
      CompareBelow(ROOT, rest, place);
      assert rest[0] != place[0];
    }
  }

  lemma CompareBelow(base: Path, a: Path, b: Path)
    ensures Comparable(base + a, base + b) ==> Comparable(a, b)
  {
    assert (base + a)[|base|..] == a && (base + b)[|base|..] == b;
    if base + a <= base + b {
      assert base + a == (base + b)[..|base + a|];
      assert a == b[..|a|];
    }
    if base + b <= base + a {
      assert base + b == (base + a)[..|base + b|];
      assert b == a[..|b|];
    }
  }

  /** No path above an item's place is read as the real place of a data path, or as something under it. */
  ghost predicate Undisguised(l: Layout) {
    forall i, q, d | 0 <= i < |Items(l)| && q != [] && q < ItemDst(l, i) && d in l.data && Blunt(q) != [] ::
      !(ROOT + RelSegments(d) <= Blunt(Blunt(q)))
  }

  /** What is at or under an item's place is not read as the real place of a data path. */
  lemma UnderIsAway(l: Layout, i: nat, q: Path, d: string)
    requires Placeable(l) && i < |Items(l)| && ItemDst(l, i) <= q && d in l.data
    ensures !(ROOT + RelSegments(d) <= Read(Join(q, '/')))
  {
    ItemDeclared(l, i);
    ReadUnder(q, ItemDst(l, i));
    ItemAway(l, i, d);
    hide Read, Join, NormalPath, Placeable;
    CompareThrough(ROOT + RelSegments(d), ItemDst(l, i), Read(Join(q, '/')));
  }

  lemma AboveIsAway(l: Layout, i: nat, q: Path, d: string)
    requires Placeable(l) && Undisguised(l) && i < |Items(l)| && q != [] && q < ItemDst(l, i) && d in l.data
    ensures !(ROOT + RelSegments(d) <= Read(Join(q, '/')))
  {
    ItemDeclared(l, i);
    PrefixIsProper(q, ItemDst(l, i));
    ReadText(q);
  }

  lemma StagedAway(t: Tree, l: Layout, q: Path, d: string)
    requires Placeable(l) && Undisguised(l) && Anchored(t, Items(l), |Items(l)|) && q in t && q != [] && d in l.data
    ensures !(ROOT + RelSegments(d) <= Read(Join(q, '/')))
  {
    hide Read, Join, Undisguised, NormalPath, RelSegments;
    if q <= ROOT {
      TopIsRead(l, false, q);
    } else {
      var items := Items(l);
      var i :| 0 <= i < |items| && items[i].dst.Some? && Comparable(items[i].dst.value, q);
      DstOfItem(l, i);
      if ItemDst(l, i) <= q {
        UnderIsAway(l, i, q, d);
      } else {
        AboveIsAway(l, i, q, d);
      }
    }
  }

  lemma PlaceIsRooted(t: Tree, l: Layout, i: nat)
    requires PlainLayout(l) && Anchored(t, Items(l), |Items(l)|) && i < |Items(l)|
    ensures Rooted(t, ItemDst(l, i))
  {
    hide PlainLayout, Rooted, Tied, Owned, Items;
    DstOfItem(l, i);
  }

  /** A disguised path is in every staged payload, and is reported. */
  lemma DisguisedIsReached(t: Tree, l: Layout, paths: seq<string>, i: nat, q: Path, d: string)
    requires PlainLayout(l) && Anchored(t, Items(l), |Items(l)|) && Lists(paths, t)
    requires i < |Items(l)| && q != [] && q < ItemDst(l, i) && Blunt(q) != []
    requires ROOT + RelSegments(d) <= Blunt(Blunt(q))
    ensures Reached(paths, ROOT + RelSegments(d))
  {
    hide Anchored, Join, Read, PlainLayout, RelSegments;
    PlaceIsRooted(t, l, i);
    assert q in t;
    ItemDeclared(l, i);
    PrefixIsProper(q, ItemDst(l, i));
    ReadText(q);
    assert Join(q, '/') in paths;
  }

  lemma DefaultIsReached(t: Tree, l: Layout, paths: seq<string>, k: nat)
    requires PlainLayout(l) && Anchored(t, Items(l), |Items(l)|) && Lists(paths, t) && k < |l.data|
    ensures Reached(paths, DEFAULTS + RelSegments(l.data[k]))
  {
    hide Join, ProperPath, RelSegments, Read, PlainLayout, Normalize, Segments, Anchored;
    var i := |l.modules| + k;
    PlaceIsRooted(t, l, i);
    assert ItemDst(l, i) in t;
    ItemDeclared(l, i);
    ReadOfText(ItemDst(l, i));
    assert Join(ItemDst(l, i), '/') in paths;
  }

  // ---- The whole contract ----

  /** The report of a payload whose only fault can be the names of desktop artifacts. */
  ghost predicate OnlyArtifacts(failures: seq<Failure>, paths: seq<string>, lower: Lowering) {
    failures == ArtifactFailures(NormalizeAll(paths), DESKTOP_ARTIFACTS, lower, |DESKTOP_ARTIFACTS|)
  }

  lemma AnchoredDeclares(t: Tree, l: Layout, paths: seq<string>, systemd: bool)
    requires PlainLayout(l) && Anchored(t, Items(l), |Items(l)|) && Lists(paths, t)
    ensures UndeclaredFailures(NormalizeAll(paths), l, systemd) == []
  {
    hide Declared, UndeclaredFailures, NormalizeAll, PlainLayout, Anchored;
    forall p | p in paths ensures Declared(l, systemd, p) {
      var q :| q in t && q != [] && p == Join(q, '/');
      StagedDeclared(t, l, q, systemd);
    }
    UndeclaredIff(paths, l, systemd);
  }

  lemma AnchoredDataIff(t: Tree, l: Layout, paths: seq<string>)
    requires Placeable(l) && Anchored(t, Items(l), |Items(l)|) && Lists(paths, t)
    ensures Flatten(PerDataPath(NormalizeAll(paths), l.data), |l.data|) == [] <==> Undisguised(l)
  {
    assert PlainLayout(l);
    AllDataIff(paths, l);
    hide Placeable, PlainLayout, Anchored, PerDataPath, Flatten, NormalizeAll, Read, RelSegments, Blunt, ItemDst, Items;
    forall d | d in l.data ensures Reached(paths, DEFAULTS + RelSegments(d)) {
      var k :| 0 <= k < |l.data| && l.data[k] == d;
      DefaultIsReached(t, l, paths, k);
    }
    if Undisguised(l) {
      forall d, p | d in l.data && p in paths ensures !(ROOT + RelSegments(d) <= Read(p)) {
        var q :| q in t && q != [] && p == Join(q, '/');
        StagedAway(t, l, q, d);
      }
    } else {
      var i: nat, q, d :| i < |Items(l)| && q != [] && q < ItemDst(l, i) && d in l.data && Blunt(q) != []
        && ROOT + RelSegments(d) <= Blunt(Blunt(q));
      DisguisedIsReached(t, l, paths, i, q, d);
    }
  }

  lemma RestOfReport(l: Layout, paths: seq<string>, systemd: bool, lower: Lowering)
    requires UndeclaredFailures(NormalizeAll(paths), l, systemd) == []
    ensures OnlyArtifacts(Failures(paths, l, systemd, lower), paths, lower) <==>
      Flatten(PerDataPath(NormalizeAll(paths), l.data), |l.data|) == []
  {
    hide UndeclaredFailures, ArtifactFailures, PerDataPath, NormalizeAll, Flatten;
    var artifacts := ArtifactFailures(NormalizeAll(paths), DESKTOP_ARTIFACTS, lower, |DESKTOP_ARTIFACTS|);
    var data := Flatten(PerDataPath(NormalizeAll(paths), l.data), |l.data|);
    assert |[] + artifacts + data| == |artifacts| + |data|;
    assert [] + artifacts + [] == artifacts;
  }

  /**
   Whatever the names and contents of the source files, a payload that staging
   builds from a placeable layout has no undeclared path. It has every data path in
   the defaults area and none in its real place, so that the report names desktop
   artifacts only, if and only if the layout is undisguised.
   */
  lemma StagedPayloadIff(l: Layout, paths: seq<string>, systemd: bool, lower: Lowering)
    requires Placeable(l) && Stage(EmptyPayload(), l).Some? && Lists(paths, Stage(EmptyPayload(), l).value)
    ensures UndeclaredFailures(NormalizeAll(paths), l, systemd) == []
    ensures OnlyArtifacts(Failures(paths, l, systemd, lower), paths, lower) <==> Undisguised(l)
  {
    assert LayoutOk(l) && PlainLayout(l);
    hide *;
    EmptyAnchored(Items(l));
    StagedAnchored(EmptyPayload(), l);
    AnchoredDeclares(Stage(EmptyPayload(), l).value, l, paths, systemd);
    AnchoredDataIff(Stage(EmptyPayload(), l).value, l, paths);
    RestOfReport(l, paths, systemd, lower);
  }

  /** No segment of an item path ends in a blank. */
  ghost predicate SolidSegments(l: Layout) {
    && (forall m, k | m in l.modules && 0 <= k < |RelSegments(m)| :: SolidEnd(RelSegments(m)[k]))
    && (forall d, k | d in l.data && 0 <= k < |RelSegments(d)| :: SolidEnd(RelSegments(d)[k]))
  }

  lemma SolidPlaces(l: Layout, i: nat, k: nat)
    requires SolidSegments(l) && i < |Items(l)| && k < |ItemDst(l, i)|
    ensures SolidEnd(ItemDst(l, i)[k])
  {
    DirNames();
    hide SolidEnd, RelSegments;
    if i < |l.modules| {
      assert l.modules[i] in l.modules;
      assert k >= 2 ==> ItemDst(l, i)[k] == RelSegments(l.modules[i])[k - 2];
    } else {
      var d := l.data[i - |l.modules|];
      assert d in l.data;
      assert k >= 3 ==> ItemDst(l, i)[k] == RelSegments(d)[k - 3];
    }
  }

  lemma SolidIsUndisguised(l: Layout)
    requires Placeable(l) && SolidSegments(l)
    ensures Undisguised(l)
  {
    assert PlainLayout(l);
    hide RelSegments, ProperPath, Blunt, SolidEnd, Placeable, SolidSegments, PlainLayout;
    forall i: nat, q, d | i < |Items(l)| && q != [] && q < ItemDst(l, i) && d in l.data && Blunt(q) != []
      ensures !(ROOT + RelSegments(d) <= Blunt(Blunt(q)))
    {
      ItemDeclared(l, i);
      PrefixIsProper(q, ItemDst(l, i));
      SolidPlaces(l, i, |q| - 1);
      BluntSolid(q);
      ItemAway(l, i, d);
    }
  }

  /** Without blanks at the ends of segments, the report on a staged payload names desktop artifacts only. */
  lemma StagedPayloadPasses(l: Layout, paths: seq<string>, systemd: bool, lower: Lowering)
    requires Placeable(l) && SolidSegments(l)
    requires Stage(EmptyPayload(), l).Some? && Lists(paths, Stage(EmptyPayload(), l).value)
    ensures OnlyArtifacts(Failures(paths, l, systemd, lower), paths, lower)
  {
    hide *;
    SolidIsUndisguised(l);
    StagedPayloadIff(l, paths, systemd, lower);
  }

  // ---- Staging itself ----

  /** Module paths and data paths are apart among themselves, and no module enters the defaults area. */
  ghost predicate Separate(l: Layout) {
    && (forall i, k | 0 <= i < |l.modules| && 0 <= k < |l.modules| && i != k ::
          !Comparable(RelSegments(l.modules[i]), RelSegments(l.modules[k])))
    && (forall i, k | 0 <= i < |l.data| && 0 <= k < |l.data| && i != k ::
          !Comparable(RelSegments(l.data[i]), RelSegments(l.data[k])))
    && (forall m | m in l.modules :: RelSegments(m)[0] != DEFAULTS_DIR)
  }

  ghost predicate SourcesPresent(l: Layout) {
    (forall m | m in l.modules :: m in l.moduleSources) && (forall d | d in l.data :: d in l.dataSources)
  }

  lemma PlacesApart(l: Layout, i: nat, k: nat)
    requires Placeable(l) && Separate(l) && i < k < |Items(l)|
    ensures !Comparable(ItemDst(l, i), ItemDst(l, k))
  {
    if k < |l.modules| {
      CompareBelow(ROOT, RelSegments(l.modules[i]), RelSegments(l.modules[k]));
    } else if i < |l.modules| {
      var rest := [DEFAULTS_DIR] + RelSegments(l.data[k - |l.modules|]);
      assert ItemDst(l, k) == ROOT + rest;
      assert l.modules[i] in l.modules;
      CompareBelow(ROOT, RelSegments(l.modules[i]), rest);
      assert rest[0] != RelSegments(l.modules[i])[0];
    } else {
      CompareBelow(DEFAULTS, RelSegments(l.data[i - |l.modules|]), RelSegments(l.data[k - |l.modules|]));
    }
  }

  lemma LayoutItemsApart(l: Layout)
    requires Placeable(l) && Separate(l)
    ensures ItemsApart(Items(l))
  {
    var items := Items(l);
    forall i, k | 0 <= i < |items| && 0 <= k < |items| && i != k && items[i].dst.Some? && items[k].dst.Some?
      ensures !Comparable(items[i].dst.value, items[k].dst.value)
    {
      DstOfItem(l, i);
      DstOfItem(l, k);
      if i < k {
        PlacesApart(l, i, k);
      } else {
        PlacesApart(l, k, i);
      }
    }
  }

  lemma LayoutItemFound(l: Layout, i: nat)
    requires Placeable(l) && SourcesPresent(l) && i < |Items(l)|
    ensures Found(Items(l)[i]) && ROOT < Items(l)[i].dst.value
  {
    DstOfItem(l, i);
    if i < |l.modules| {
      assert l.modules[i] in l.modules;
    } else {
      assert l.data[i - |l.modules|] in l.data;
    }
  }

  /** With every source there and all items apart, staging succeeds. */
  lemma StagingSucceeds(l: Layout)
    requires Placeable(l) && Separate(l) && SourcesPresent(l)
    ensures Stage(EmptyPayload(), l).Some?
  {
    EmptyAnchored(Items(l));
    LayoutItemsOk(l);
    LayoutItemsApart(l);
    forall i | 0 <= i < |Items(l)| ensures Found(Items(l)[i]) && ROOT < Items(l)[i].dst.value {
      LayoutItemFound(l, i);
    }
    AllSucceed(EmptyPayload(), Items(l));
    StageIsAll(EmptyPayload(), l);
  }

  // ---- A layout that staging builds and the verifier refuses ----

  function AnyFile(): Source {
    Source("f", map[[] := File("")])
  }

  /** A module in a directory whose name ends in a blank, and a data path with that name but for the blank. */
  function Disguised(): Layout {
    Layout(ROOT, ["a /b"], ["a"], [], map["a /b" := AnyFile()], map["a" := AnyFile()])
  }

  ghost predicate AllNormalised(l: Layout) {
    (forall m | m in l.modules :: Normalize(m) == m) && (forall d | d in l.data :: Normalize(d) == d)
  }

  lemma RelIsItself(rel: string)
    requires rel != "" && Trimmed(rel) && rel[0] != '/' && rel[|rel| - 1] != '/'
    ensures ItemRel(rel) == rel && StageRel(rel) == rel
  {
    StripTrimmed(rel);
  }

  lemma DisguisedSegments()
    ensures NormalSegment("a ") && NormalSegment("b") && NormalSegment("a") && SolidEnd("a") && SolidEnd("b")
    ensures NormalPath(["a ", "b"]) && NormalPath(["a"])
  {
    assert |"a "| == 2 && |"b"| == 1 && |"a"| == 1 && |".."| == 2 && |"."| == 1;
    assert "a "[0] == 'a' && "b"[0] == 'b' && "a"[0] == 'a' && ".."[0] == '.' && "."[0] == '.';
  }

  lemma DisguisedPaths()
    ensures RelSegments("a /b") == ["a ", "b"] && RelSegments("a") == ["a"] && Plain("a /b") && Plain("a")
    ensures ItemRel("a /b") == "a /b" && ItemRel("a") == "a"
  {
    RelIsItself("a /b");
    RelIsItself("a");
    DisguisedSegments();
    hide ItemRel, StageRel, Strip, NormalSegment, SolidEnd, NormalPath;
    assert "a /b" == "a " + ['/'] + "b";
    SplitConcat("a ", "b", '/');
    SplitPlain("a ", '/');
    SplitPlain("b", '/');
    SplitPlain("a", '/');
  }

  lemma DisguisedNames()
    ensures "a " != "a" && "a " != DEFAULTS_DIR && "a" != DEFAULTS_DIR
  {
    assert |"a "| == 2 && |"a"| == 1 && |DEFAULTS_DIR| > 2;
  }

  lemma DisguisedSources()
    ensures LayoutOk(Disguised()) && SourcesPresent(Disguised())
  {
    assert WellFormed(AnyFile().nodes);
  }

  lemma DisguisedIsPlaceable()
    ensures Placeable(Disguised()) && Separate(Disguised()) && SourcesPresent(Disguised())
  {
    hide Plain, RelSegments, LayoutOk;
    var l := Disguised();
    DisguisedPaths();
    DisguisedNames();
    DisguisedSources();
    assert l.modules == ["a /b"] && l.data == ["a"];
    var x: Path, y: Path := ["a ", "b"], ["a"];
    assert x[0] == "a " && y[0] == "a";
    assert !Comparable(x, y);
  }

  lemma RelIsNormalised(rel: string)
    requires ItemRel(rel) == rel && NormalPath(RelSegments(rel))
    ensures Normalize(rel) == rel
  {
    hide Normalize, NormalPath;
    NormalText(RelSegments(rel));
    JoinSplit(rel, '/');
  }

  lemma DisguisedIsNormal()
    ensures AllNormalised(Disguised())
  {
    DisguisedPaths();
    DisguisedSegments();
    hide Normalize, RelSegments, NormalPath, Plain, ItemRel;
    RelIsNormalised("a /b");
    RelIsNormalised("a");
    assert Disguised().modules == ["a /b"] && Disguised().data == ["a"];
  }

  lemma BluntedName()
    ensures Blunt(ROOT + ["a "]) == ROOT + ["a"] && Blunt(ROOT + ["a"]) == ROOT + ["a"]
  {
    assert "a "[..1] == "a";
    assert StripRight("a ", Blank) == "a" && StripRight("a", Blank) == "a";
    assert (ROOT + ["a "])[..2] == ROOT && (ROOT + ["a"])[..2] == ROOT;
  }

  lemma DisguisedIsRead()
    ensures !Undisguised(Disguised())
  {
    DisguisedPaths();
    BluntedName();
    hide Plain, RelSegments, Blunt;
    var l, q := Disguised(), ROOT + ["a "];
    assert ItemDst(l, 0) == ROOT + ["a ", "b"] && q < ItemDst(l, 0);
    assert "a" in l.data && ROOT + RelSegments("a") <= Blunt(Blunt(q));
  }

  /** Normalised paths, apart from each other; staging succeeds, and every listing of the payload is refused. */
  lemma DisguisedIsRefused(paths: seq<string>, systemd: bool, lower: Lowering)
    requires Stage(EmptyPayload(), Disguised()).Some? ==> Lists(paths, Stage(EmptyPayload(), Disguised()).value)
    ensures AllNormalised(Disguised())
    ensures Stage(EmptyPayload(), Disguised()).Some?
    ensures !OnlyArtifacts(Failures(paths, Disguised(), systemd, lower), paths, lower)
  {
    hide *;
    DisguisedIsNormal();
    DisguisedIsPlaceable();
    StagingSucceeds(Disguised());
    DisguisedIsRead();
    StagedPayloadIff(Disguised(), paths, systemd, lower);
  }
}
