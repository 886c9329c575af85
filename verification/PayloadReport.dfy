/**
 What an empty report means, for any payload and any layout of plain item paths:
 the string tests of the verifier, said in segments.
 */
module PayloadReport {
  import opened Text
  import opened FileTree
  import opened Installer
  import opened PayloadPaths
  import opened PathText
  import opened Staging
  import opened PayloadVerifier

  const SERVICE: Path := ["etc", "systemd", "system", "buckyos.service"]

  ghost predicate PlainLayout(l: Layout) {
    (forall m | m in l.modules :: Plain(m)) && (forall d | d in l.data :: Plain(d))
  }

  /** Where the `i`th item goes, modules first. */
  ghost function ItemDst(l: Layout, i: nat): Path
    requires i < |Items(l)|
  {
    if i < |l.modules| then ROOT + RelSegments(l.modules[i]) else DEFAULTS + RelSegments(l.data[i - |l.modules|])
  }

  lemma DstOfItem(l: Layout, i: nat)
    requires PlainLayout(l) && i < |Items(l)|
    ensures Items(l)[i].dst == Some(ItemDst(l, i))
  {
    if i < |l.modules| {
      assert l.modules[i] in l.modules;
      PlainDst(ROOT, l.modules[i]);
    } else {
      assert l.data[i - |l.modules|] in l.data;
      PlainDst(DEFAULTS, l.data[i - |l.modules|]);
    }
  }

  // ---- What is declared ----

  lemma {:induction false} PrefixIn(base: string, rels: seq<string>, n: nat, i: nat)
    requires i < n <= |rels| && ItemRel(rels[i]) != ""
    ensures PrefixText(base, rels[i]) in Prefixes(base, rels, n)
  {
    if i < n - 1 {
      PrefixIn(base, rels, n - 1, i);
    }
  }

  lemma {:induction false} AncestorIn(parts: seq<string>, k: nat)
    requires 0 < k < |parts|
    ensures Join(parts[..k], '/') in AncestorTexts(parts)
  {
    var shorter := parts[..|parts| - 1];
    if k < |shorter| {
      AncestorIn(shorter, k);
      assert shorter[..k] == parts[..k];
    }
  }

  lemma {:induction false} AncestorsIn(prefixes: seq<string>, n: nat, i: nat, e: string)
    requires i < n <= |prefixes| && e in AncestorTexts(Split(prefixes[i], '/'))
    ensures e in AllAncestors(prefixes, n)
  {
    if i < n - 1 {
      AncestorsIn(prefixes, n - 1, i, e);
    }
  }

  /** The text of an item's place is a declared prefix. */
  lemma ItemDeclared(l: Layout, i: nat)
    requires PlainLayout(l) && i < |Items(l)|
    ensures NormalPath(ItemDst(l, i)) && Join(ItemDst(l, i), '/') in DeclaredPrefixes(l)
  {
    Constants();
    if i < |l.modules| {
      var rel := l.modules[i];
      assert rel in l.modules;
      PlainDst(ROOT, rel);
      PlainPrefix(ROOT, ROOT_TEXT, rel);
      PrefixIn(ROOT_TEXT, l.modules, |l.modules|, i);
    } else {
      var rel := l.data[i - |l.modules|];
      assert rel in l.data;
      PlainDst(DEFAULTS, rel);
      PlainPrefix(DEFAULTS, DEFAULTS_TEXT, rel);
      PrefixIn(DEFAULTS_TEXT, l.data, |l.data|, i - |l.modules|);
    }
  }

  lemma AboveDeclared(l: Layout, dst: Path, q: Path, systemd: bool)
    requires NormalPath(dst) && Join(dst, '/') in DeclaredPrefixes(l) && q != [] && q < dst
    ensures Join(q, '/') in DeclaredExact(l, systemd)
  {
    hide Join, Split, Prefixes, AncestorTexts, NormalPath;
    var prefixes := DeclaredPrefixes(l);
    var i :| 0 <= i < |prefixes| && prefixes[i] == Join(dst, '/');
    NormalText(dst);
    AncestorIn(dst, |q|);
    assert dst[..|q|] == q;
    AncestorsIn(prefixes, |prefixes|, i, Join(q, '/'));
  }

  // ---- Prefixes are places ----

  lemma {:induction false} PrefixComes(base: string, rels: seq<string>, n: nat, q: string)
    requires n <= |rels| && q in Prefixes(base, rels, n)
    ensures exists i :: 0 <= i < n && q == PrefixText(base, rels[i])
  {
    if q in Prefixes(base, rels, n - 1) {
      PrefixComes(base, rels, n - 1, q);
    } else {
      assert q == PrefixText(base, rels[n - 1]);
    }
  }

  /** The text of an item's place is the prefix declared for it. */
  lemma PlaceText(l: Layout, i: nat)
    requires PlainLayout(l) && i < |Items(l)|
    ensures Join(ItemDst(l, i), '/') ==
      if i < |l.modules| then PrefixText(ROOT_TEXT, l.modules[i])
      else PrefixText(DEFAULTS_TEXT, l.data[i - |l.modules|])
  {
    Constants();
    if i < |l.modules| {
      assert l.modules[i] in l.modules;
      PlainPrefix(ROOT, ROOT_TEXT, l.modules[i]);
    } else {
      assert l.data[i - |l.modules|] in l.data;
      PlainPrefix(DEFAULTS, DEFAULTS_TEXT, l.data[i - |l.modules|]);
    }
  }

  lemma PrefixIsPlace(l: Layout, q: string)
    requires PlainLayout(l) && q in DeclaredPrefixes(l)
    ensures exists i :: 0 <= i < |Items(l)| && q == Join(ItemDst(l, i), '/')
  {
    if q in Prefixes(ROOT_TEXT, l.modules, |l.modules|) {
      PrefixComes(ROOT_TEXT, l.modules, |l.modules|, q);
      var i :| 0 <= i < |l.modules| && q == PrefixText(ROOT_TEXT, l.modules[i]);
      PlaceText(l, i);
    } else {
      PrefixComes(DEFAULTS_TEXT, l.data, |l.data|, q);
      var k :| 0 <= k < |l.data| && q == PrefixText(DEFAULTS_TEXT, l.data[k]);
      PlaceText(l, |l.modules| + k);
    }
  }

  /** The text of a normal path is read as that path, however often it is normalised. */
  lemma ReadOfText(x: Path)
    requires NormalPath(x)
    ensures
      var s := Join(x, '/');
      Normalize(s) == s && Segments(s) == x && Read(s) == x
  {
    NormalText(x);
  }

  // ---- Exact paths are those above a place ----

  lemma {:induction false} AncestorComes(parts: seq<string>, e: string)
    requires e in AncestorTexts(parts)
    ensures exists k :: 0 < k < |parts| && e == Join(parts[..k], '/')
  {
    var shorter := parts[..|parts| - 1];
    if e != Join(shorter, '/') {
      AncestorComes(shorter, e);
      var k :| 0 < k < |shorter| && e == Join(shorter[..k], '/');
      assert shorter[..k] == parts[..k];
    } else {
      assert parts[..|shorter|] == shorter;
    }
  }

  lemma {:induction false} AncestorsCome(prefixes: seq<string>, n: nat, e: string)
    requires n <= |prefixes| && e in AllAncestors(prefixes, n)
    ensures exists i :: 0 <= i < n && e in AncestorTexts(Split(prefixes[i], '/'))
  {
    if e !in AncestorTexts(Split(prefixes[n - 1], '/')) {
      AncestorsCome(prefixes, n - 1, e);
    }
  }

  /** At or above the defaults area or the service file, or above the place of an item. */
  ghost predicate AbovePlace(l: Layout, systemd: bool, x: Path) {
    || x <= DEFAULTS
    || (systemd && x <= SERVICE)
    || (exists i | 0 <= i < |Items(l)| :: x < ItemDst(l, i))
  }

  function ServicePath(k: nat): Path
    requires k < 4
  {
    SERVICE[..k + 1]
  }

  lemma ServiceNames()
    ensures TreeSegment("etc") && TreeSegment("systemd") && TreeSegment("system") && TreeSegment("buckyos.service")
    ensures SolidEnd("buckyos.service")
  {
  }

  lemma ServiceTexts()
    ensures NormalPath(SERVICE)
    ensures forall k: nat | k < 4 :: SYSTEMD[k] == Join(ServicePath(k), '/')
  {
    ServiceNames();
    hide TreeSegment, SolidEnd;
    assert ServicePath(0) == ["etc"] && ServicePath(1) == ServicePath(0) + ["systemd"];
    assert ServicePath(2) == ServicePath(1) + ["system"] && ServicePath(3) == ServicePath(2) + ["buckyos.service"];
    JoinConcat(ServicePath(0), ["systemd"], '/');
    JoinConcat(ServicePath(1), ["system"], '/');
    JoinConcat(ServicePath(2), ["buckyos.service"], '/');
  }

  lemma ShortPrefixes(x: Path)
    requires x != []
    ensures x <= DEFAULTS <==> x == ["opt"] || x == ROOT || x == DEFAULTS
    ensures x <= SERVICE ==> |x| <= 4 && x == ServicePath(|x| - 1)
  {
    if x <= DEFAULTS {
      assert x == DEFAULTS[..|x|];
    }
  }

  lemma AboveIsExact(l: Layout, systemd: bool, x: Path)
    requires PlainLayout(l) && x != [] && AbovePlace(l, systemd, x)
    ensures Join(x, '/') in DeclaredExact(l, systemd)
  {
    ShortPrefixes(x);
    if x <= DEFAULTS {
      Constants();
    } else if systemd && x <= SERVICE {
      ServiceTexts();
      assert SYSTEMD[|x| - 1] in SYSTEMD;
    } else {
      var i :| 0 <= i < |Items(l)| && x < ItemDst(l, i);
      ItemDeclared(l, i);
      AboveDeclared(l, ItemDst(l, i), x, systemd);
    }
  }

  lemma AncestorIsAbove(l: Layout, systemd: bool, e: string)
    requires PlainLayout(l) && e in AllAncestors(DeclaredPrefixes(l), |DeclaredPrefixes(l)|)
    ensures exists x :: x != [] && AbovePlace(l, systemd, x) && e == Join(x, '/')
  {
    hide DeclaredPrefixes, AllAncestors, AncestorTexts, Join, Split, NormalPath, PlainLayout;
    var prefixes := DeclaredPrefixes(l);
    AncestorsCome(prefixes, |prefixes|, e);
    var i :| 0 <= i < |prefixes| && e in AncestorTexts(Split(prefixes[i], '/'));
    PrefixIsPlace(l, prefixes[i]);
    var k :| 0 <= k < |Items(l)| && prefixes[i] == Join(ItemDst(l, k), '/');
    ItemDeclared(l, k);
    NormalText(ItemDst(l, k));
    AncestorComes(ItemDst(l, k), e);
    var m :| 0 < m < |ItemDst(l, k)| && e == Join(ItemDst(l, k)[..m], '/');
    assert ItemDst(l, k)[..m] < ItemDst(l, k);
  }

  lemma ExactIsAbove(l: Layout, systemd: bool, e: string)
    requires PlainLayout(l) && e in DeclaredExact(l, systemd)
    ensures exists x :: x != [] && AbovePlace(l, systemd, x) && e == Join(x, '/')
  {
    Constants();
    if e == "opt" {
      assert AbovePlace(l, systemd, ["opt"]) && Join(["opt"], '/') == "opt";
    } else if e == ROOT_TEXT {
      assert AbovePlace(l, systemd, ROOT);
    } else if e == DEFAULTS_TEXT {
      assert AbovePlace(l, systemd, DEFAULTS);
    } else if e in AllAncestors(DeclaredPrefixes(l), |DeclaredPrefixes(l)|) {
      AncestorIsAbove(l, systemd, e);
    } else {
      ServiceTexts();
      var k: nat :| k < 4 && SYSTEMD[k] == e;
      assert AbovePlace(l, systemd, ServicePath(k));
    }
  }

  // ---- The three tests, in segments ----

  lemma AboveIsProper(l: Layout, systemd: bool, x: Path)
    requires PlainLayout(l) && x != [] && AbovePlace(l, systemd, x)
    ensures ProperPath(x)
  {
    Constants();
    ServiceTexts();
    assert ProperPath(DEFAULTS) && ProperPath(SERVICE);
    if x <= DEFAULTS {
      PrefixIsProper(x, DEFAULTS);
    } else if systemd && x <= SERVICE {
      PrefixIsProper(x, SERVICE);
    } else {
      var i :| 0 <= i < |Items(l)| && x < ItemDst(l, i);
      ItemDeclared(l, i);
      PrefixIsProper(x, ItemDst(l, i));
    }
  }

  /** What is left of a path above a place once blanks at its end are gone; or nothing. */
  ghost predicate ReadAbove(l: Layout, systemd: bool, n: Path) {
    n == [] || exists x | x != [] :: AbovePlace(l, systemd, x) && Blunt(x) == n
  }

  /** Above a declared place as first read, or under one when read again. */
  ghost predicate Declared(l: Layout, systemd: bool, p: string) {
    || ReadAbove(l, systemd, Read(p))
    || (exists i | 0 <= i < |Items(l)| :: ItemDst(l, i) <= Read(Normalize(p)))
  }

  lemma ExactIff(l: Layout, systemd: bool, n: Path)
    requires PlainLayout(l)
    ensures n == [] || (exists e | e in DeclaredExact(l, systemd) :: Segments(Normalize(e)) == n)
       <==> ReadAbove(l, systemd, n)
  {
    hide Normalize, Segments, DeclaredExact, ProperPath, AbovePlace, PlainLayout, Blunt, Join;
    if x :| x != [] && AbovePlace(l, systemd, x) && Blunt(x) == n {
      AboveIsExact(l, systemd, x);
      AboveIsProper(l, systemd, x);
      BluntText(x);
    }
    forall e | e in DeclaredExact(l, systemd) ensures ReadAbove(l, systemd, Segments(Normalize(e))) {
      ExactIsAbove(l, systemd, e);
      var x :| x != [] && AbovePlace(l, systemd, x) && e == Join(x, '/');
      AboveIsProper(l, systemd, x);
      BluntText(x);
    }
  }

  lemma PrefixIff(l: Layout, m: Path)
    requires PlainLayout(l)
    ensures (exists q | q in DeclaredPrefixes(l) :: Segments(Normalize(q)) != [] && Covers(Read(q), m))
       <==> (exists i | 0 <= i < |Items(l)| :: ItemDst(l, i) <= m)
  {
    hide Normalize, Segments, Read, DeclaredPrefixes;
    forall i | 0 <= i < |Items(l)|
      ensures
        var q := Join(ItemDst(l, i), '/');
        && q in DeclaredPrefixes(l) && ItemDst(l, i) != []
        && Segments(Normalize(q)) == ItemDst(l, i) && Read(q) == ItemDst(l, i)
    {
      ItemDeclared(l, i);
      ReadOfText(ItemDst(l, i));
    }
    forall q | q in DeclaredPrefixes(l)
      ensures exists i :: 0 <= i < |Items(l)| && q == Join(ItemDst(l, i), '/')
    {
      PrefixIsPlace(l, q);
    }
  }

  lemma DeclaredIff(l: Layout, systemd: bool, p: string)
    requires PlainLayout(l)
    ensures Allowed(Normalize(p), DeclaredPrefixes(l), DeclaredExact(l, systemd)) <==> Declared(l, systemd, p)
  {
    hide Allowed, ReadAbove, DeclaredPrefixes, DeclaredExact, Normalize, Segments, Covers, Items, PlainLayout;
    AllowedIff(Normalize(p), DeclaredPrefixes(l), DeclaredExact(l, systemd));
    ExactIff(l, systemd, Read(p));
    PrefixIff(l, Read(Normalize(p)));
  }

  /** Some path is read as lying at or under the place. */
  ghost predicate Reached(paths: seq<string>, place: Path) {
    exists p | p in paths :: place <= Read(p)
  }

  lemma PresentIff(paths: seq<string>, base: Path, text: string, rel: string)
    requires Plain(rel) && NormalPath(base) && Join(base, '/') == text
    ensures Present(NormalizeAll(paths), PrefixText(text, rel)) <==> Reached(paths, base + RelSegments(rel))
  {
    hide Normalize, Matches, Segments, Join, NormalPath, Plain, RelSegments, PrefixText;
    var place := base + RelSegments(rel);
    var normal := NormalizeAll(paths);
    PlainPrefix(base, text, rel);
    assert place != [];
    ReadOfText(place);
    forall p ensures Matches(Normalize(p), Join(place, '/')) <==> place <= Read(p) {
      MatchesCovers(Normalize(p), Join(place, '/'));
    }
    hide Read;
    if Present(normal, Join(place, '/')) {
      var p :| p in normal && Matches(p, Join(place, '/'));
      var j :| 0 <= j < |normal| && normal[j] == p;
      assert paths[j] in paths;
    }
    if Reached(paths, place) {
      var p :| p in paths && place <= Read(p);
      var j :| 0 <= j < |paths| && paths[j] == p;
      assert normal[j] in normal;
    }
  }

  lemma DataPathIff(paths: seq<string>, rel: string)
    requires Plain(rel)
    ensures DataFailures(NormalizeAll(paths), rel) == [] <==>
      !Reached(paths, ROOT + RelSegments(rel)) && Reached(paths, DEFAULTS + RelSegments(rel))
  {
    hide Present, Reached, NormalizeAll, RelSegments, PrefixText, ItemRel, Plain, NormalPath;
    Constants();
    PlainDst(ROOT, rel);
    PresentIff(paths, ROOT, ROOT_TEXT, rel);
    PresentIff(paths, DEFAULTS, DEFAULTS_TEXT, rel);
  }

  // ---- The whole report ----

  lemma {:induction false} FlattenIff(parts: seq<seq<Failure>>, n: nat)
    requires n <= |parts|
    ensures Flatten(parts, n) == [] <==> forall i | 0 <= i < n :: parts[i] == []
  {
    if n > 0 {
      FlattenIff(parts, n - 1);
    }
  }

  lemma {:induction false} ArtifactsIff(paths: seq<string>, names: seq<string>, lower: Lowering, n: nat)
    requires n <= |names|
    ensures ArtifactFailures(paths, names, lower, n) == [] <==> forall i | 0 <= i < n :: !Occurs(paths, names[i], lower)
  {
    if n > 0 {
      hide Occurs;
      ArtifactsIff(paths, names, lower, n - 1);
    }
  }

  lemma UndeclaredNone(normal: seq<string>, l: Layout, systemd: bool)
    ensures UndeclaredFailures(normal, l, systemd) == [] <==>
      forall p | p in normal :: Allowed(p, DeclaredPrefixes(l), DeclaredExact(l, systemd))
  {
    hide Allowed, DeclaredPrefixes, DeclaredExact, Normalize;
    forall p | p in normal && !Allowed(p, DeclaredPrefixes(l), DeclaredExact(l, systemd))
      ensures Normalize(p) in UndeclaredPaths(normal, l, systemd)
    {
    }
  }

  lemma UndeclaredIff(paths: seq<string>, l: Layout, systemd: bool)
    requires PlainLayout(l)
    ensures UndeclaredFailures(NormalizeAll(paths), l, systemd) == [] <==>
      forall p | p in paths :: Declared(l, systemd, p)
  {
    var normal := NormalizeAll(paths);
    hide UndeclaredFailures, Allowed, Declared, DeclaredPrefixes, DeclaredExact, Normalize, PlainLayout;
    UndeclaredNone(normal, l, systemd);
    forall i | 0 <= i < |paths|
      ensures paths[i] in paths && normal[i] in normal
      ensures Allowed(normal[i], DeclaredPrefixes(l), DeclaredExact(l, systemd)) <==> Declared(l, systemd, paths[i])
    {
      DeclaredIff(l, systemd, paths[i]);
    }
  }

  lemma AllDataIff(paths: seq<string>, l: Layout)
    requires PlainLayout(l)
    ensures Flatten(PerDataPath(NormalizeAll(paths), l.data), |l.data|) == [] <==>
      forall d | d in l.data :: !Reached(paths, ROOT + RelSegments(d)) && Reached(paths, DEFAULTS + RelSegments(d))
  {
    hide DataFailures, Reached, NormalizeAll, RelSegments, Plain;
    var parts := PerDataPath(NormalizeAll(paths), l.data);
    FlattenIff(parts, |l.data|);
    forall i | 0 <= i < |l.data|
      ensures l.data[i] in l.data
      ensures parts[i] == [] <==>
        !Reached(paths, ROOT + RelSegments(l.data[i])) && Reached(paths, DEFAULTS + RelSegments(l.data[i]))
    {
      assert l.data[i] in l.data;
      DataPathIff(paths, l.data[i]);
    }
  }

  /**
   The report on any payload is empty if and only if every path is read as above or
   under a declared place, every data path is in the defaults area and none in its
   real place, and no desktop artifact is named.
   */
  lemma ReportIff(paths: seq<string>, l: Layout, systemd: bool, lower: Lowering)
    requires PlainLayout(l)
    ensures Failures(paths, l, systemd, lower) == [] <==>
      && (forall p | p in paths :: Declared(l, systemd, p))
      && (forall d | d in l.data ::
            !Reached(paths, ROOT + RelSegments(d)) && Reached(paths, DEFAULTS + RelSegments(d)))
      && (forall i | 0 <= i < |DESKTOP_ARTIFACTS| :: !Occurs(NormalizeAll(paths), DESKTOP_ARTIFACTS[i], lower))
  {
    hide UndeclaredFailures, ArtifactFailures, PerDataPath, Flatten, NormalizeAll, Occurs, Reached, Declared;
    UndeclaredIff(paths, l, systemd);
    AllDataIff(paths, l);
    ArtifactsIff(NormalizeAll(paths), DESKTOP_ARTIFACTS, lower, |DESKTOP_ARTIFACTS|);
  }
}
