/**
 What each entry of the verifier's report says, for any payload and any layout of
 plain item paths: which paths are undeclared, which data paths are where they must
 not be or missing where they must be, and which desktop artifacts are named.
 */
module ReportEntries {
  import opened Text
  import opened FileTree
  import opened Installer
  import opened PayloadPaths
  import opened PathText
  import opened Staging
  import opened PayloadVerifier
  import opened PayloadReport

  // ---- Item paths ----

  /** Blanks around an item path do not count, nor do slashes around its names. */
  lemma NamesRead(names: seq<string>)
    requires names != [] && Separable(names, '/') && forall i | 0 <= i < |names| :: IsName(names[i])
    requires Trimmed(Join(names, '/'))
    ensures
      var text := Join(names, '/');
      RelSegments(text) == RelSegments("/" + text + "/") == RelSegments("//" + text) == names
  {
    var text := Join(names, '/');
    JoinStarts(names);
    assert names[0][0] != '/';
    JoinEnds(names);
    SplitJoin(names, '/');
    BareRel(text);
  }

  lemma SlashInFront(s: string)
    ensures StripLeft("/" + s, IsSlash) == StripLeft(s, IsSlash)
  {
    assert ("/" + s)[1..] == s;
  }

  lemma BareRel(s: string)
    requires s != "" && Trimmed(s) && s[0] != '/' && s[|s| - 1] != '/'
    ensures ItemRel(s) == ItemRel("/" + s + "/") == ItemRel("//" + s) == s
  {
    hide Strip;
    var a, b := "/" + s + "/", "//" + s;
    assert Trimmed(a) && Trimmed(b);
    StripTrimmed(s);
    StripTrimmed(a);
    StripTrimmed(b);
    SlashInFront(s);
    SlashInFront(s + "/");
    SlashInFront("/" + s);
    assert a == "/" + (s + "/") && b == "/" + ("/" + s) && (s + "/")[..|s|] == s;
  }

  lemma ItemRelTrims(rel: string)
    ensures ItemRel(rel) == ItemRel(Strip(rel))
  {
    StripTrimmed(rel);
    StripTrimmed(Strip(rel));
  }

  lemma {:induction false} AllSlashes(s: string)
    requires forall i | 0 <= i < |s| :: s[i] == '/'
    ensures StripLeft(s, IsSlash) == ""
  {
    if s != "" {
      AllSlashes(s[1..]);
    }
  }

  /** An item path of nothing but slashes, blanks around them aside, declares nothing and fails nothing. */
  lemma EmptyPathsIgnored(paths: seq<string>, base: string, rel: string)
    requires forall i | 0 <= i < |Strip(rel)| :: Strip(rel)[i] == '/'
    ensures Prefixes(base, [rel], 1) == [] && DataFailures(paths, rel) == []
  {
    AllSlashes(Strip(rel));
    hide Strip;
  }

  // ---- Desktop artifacts ----

  /** One text is part of another. */
  lemma ContainsIff(s: string, part: string)
    ensures Contains(s, part) <==> exists a, b :: s == a + part + b
  {
    if Contains(s, part) {
      var i :| 0 <= i <= |s| && part <= s[i..];
      assert s == s[..i] + part + s[i + |part|..];
    }
    if a, b :| s == a + part + b {
      assert s[|a|..] == part + b;
    }
  }

  /** The name is part of some path, with the case of both lowered. */
  ghost predicate Names(paths: seq<string>, name: string, lower: Lowering) {
    exists p, a, b :: p in paths && lower(Normalize(p)) == a + lower(name) + b
  }

  lemma OccursIff(paths: seq<string>, name: string, lower: Lowering)
    ensures Occurs(NormalizeAll(paths), name, lower) <==> Names(paths, name, lower)
  {
    hide Normalize, Contains;
    var normal := NormalizeAll(paths);
    if Occurs(normal, name, lower) {
      var n :| n in normal && Contains(lower(n), lower(name));
      var i :| 0 <= i < |normal| && normal[i] == n;
      ContainsIff(lower(n), lower(name));
      assert paths[i] in paths;
    }
    if p, a, b :| p in paths && lower(Normalize(p)) == a + lower(name) + b {
      var i :| 0 <= i < |paths| && paths[i] == p;
      assert normal[i] in normal;
      ContainsIff(lower(normal[i]), lower(name));
    }
  }

  lemma {:induction false} InArtifacts(paths: seq<string>, names: seq<string>, lower: Lowering, n: nat, f: Failure)
    requires n <= |names|
    ensures f in ArtifactFailures(paths, names, lower, n) <==>
      f.Artifact? && f.name in names[..n] && Occurs(paths, f.name, lower)
  {
    hide Occurs;
    if n > 0 {
      InArtifacts(paths, names, lower, n - 1, f);
      assert names[..n] == names[..n - 1] + [names[n - 1]];
    }
  }

  // ---- Data paths ----

  lemma {:induction false} InFlatten(parts: seq<seq<Failure>>, n: nat, f: Failure)
    requires n <= |parts|
    ensures f in Flatten(parts, n) <==> exists i :: 0 <= i < n && f in parts[i]
  {
    if n > 0 {
      InFlatten(parts, n - 1, f);
    }
  }

  lemma InDataFailures(paths: seq<string>, rel: string, f: Failure)
    requires Plain(rel)
    ensures f in DataFailures(NormalizeAll(paths), rel) <==>
      || (f == AtRealPath(rel) && Reached(paths, ROOT + RelSegments(rel)))
      || (f == MissingDefault(rel) && !Reached(paths, DEFAULTS + RelSegments(rel)))
  {
    hide Present, Reached, NormalizeAll, RelSegments, PrefixText, ItemRel, Plain, NormalPath;
    Constants();
    PlainDst(ROOT, rel);
    PresentIff(paths, ROOT, ROOT_TEXT, rel);
    PresentIff(paths, DEFAULTS, DEFAULTS_TEXT, rel);
  }

  /** The failure is one that data path `d` gives rise to. */
  ghost predicate DataFails(paths: seq<string>, d: string, f: Failure) {
    || (f == AtRealPath(d) && Reached(paths, ["opt", "buckyos"] + RelSegments(d)))
    || (f == MissingDefault(d) && !Reached(paths, ["opt", "buckyos", ".buckyos_installer_defaults"] + RelSegments(d)))
  }

  lemma InData(paths: seq<string>, l: Layout, f: Failure)
    requires PlainLayout(l)
    ensures f in Flatten(PerDataPath(NormalizeAll(paths), l.data), |l.data|) <==>
      exists d :: d in l.data && DataFails(paths, d, f)
  {
    hide DataFailures, Reached, NormalizeAll, RelSegments, Plain;
    var parts := PerDataPath(NormalizeAll(paths), l.data);
    InFlatten(parts, |l.data|, f);
    forall i | 0 <= i < |l.data| ensures l.data[i] in l.data && (f in parts[i] <==> DataFails(paths, l.data[i], f)) {
      assert l.data[i] in l.data;
      InDataFailures(paths, l.data[i], f);
    }
    if d :| d in l.data && DataFails(paths, d, f) {
      var i :| 0 <= i < |l.data| && l.data[i] == d;
      assert f in parts[i];
    }
  }

  // ---- Undeclared paths ----

  /** The paths that are not declared, as they are reported. */
  ghost function NotDeclared(paths: seq<string>, l: Layout, systemd: bool): set<string> {
    set p | p in paths && !Declared(l, systemd, p) :: Normalize(Normalize(p))
  }

  lemma UndeclaredAre(paths: seq<string>, l: Layout, systemd: bool)
    requires PlainLayout(l)
    ensures UndeclaredPaths(NormalizeAll(paths), l, systemd) == NotDeclared(paths, l, systemd)
  {
    hide Allowed, Declared, DeclaredPrefixes, DeclaredExact, Normalize, PlainLayout;
    var normal := NormalizeAll(paths);
    forall i | 0 <= i < |paths|
      ensures paths[i] in paths && normal[i] in normal && normal[i] == Normalize(paths[i])
      ensures Allowed(normal[i], DeclaredPrefixes(l), DeclaredExact(l, systemd)) <==> Declared(l, systemd, paths[i])
    {
      DeclaredIff(l, systemd, paths[i]);
    }
    forall s | s in UndeclaredPaths(normal, l, systemd) ensures s in NotDeclared(paths, l, systemd) {
      var p :| p in normal && !Allowed(p, DeclaredPrefixes(l), DeclaredExact(l, systemd)) && s == Normalize(p);
      var i :| 0 <= i < |normal| && normal[i] == p;
      assert paths[i] in paths;
    }
    forall s | s in NotDeclared(paths, l, systemd) ensures s in UndeclaredPaths(normal, l, systemd) {
      var p :| p in paths && !Declared(l, systemd, p) && s == Normalize(Normalize(p));
      var i :| 0 <= i < |paths| && paths[i] == p;
      assert normal[i] in normal;
    }
  }

  // ---- The whole report ----

  /**
   The report names the undeclared paths, all in one entry, if there are any; every
   desktop artifact that is part of a path; every data path that is in its real
   place, and every one that is not in the defaults area; and nothing else.
   */
  lemma ReportSays(paths: seq<string>, l: Layout, systemd: bool, lower: Lowering, f: Failure)
    requires PlainLayout(l)
    ensures f in Failures(paths, l, systemd, lower) <==>
      match f
      case Undeclared(s) => s != {} && s == NotDeclared(paths, l, systemd)
      case Artifact(name) => name in ["BuckyOS.app", "buckyosapp.exe"] && Names(paths, name, lower)
      case AtRealPath(d) => d in l.data && Reached(paths, ["opt", "buckyos"] + RelSegments(d))
      case MissingDefault(d) =>
        d in l.data && !Reached(paths, ["opt", "buckyos", ".buckyos_installer_defaults"] + RelSegments(d))
  {
    hide ArtifactFailures, PerDataPath, Flatten, NormalizeAll, Occurs, Reached, NotDeclared, Names, PlainLayout;
    hide UndeclaredPaths, RelSegments;
    UndeclaredAre(paths, l, systemd);
    InData(paths, l, f);
    var names := DESKTOP_ARTIFACTS;
    InArtifacts(NormalizeAll(paths), names, lower, |names|, f);
    assert names[..|names|] == names == ["BuckyOS.app", "buckyosapp.exe"];
    if f.Artifact? {
      OccursIff(paths, f.name, lower);
    }
  }
}
