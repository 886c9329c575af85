/**
 The payload contract of a Linux package: which paths a layout declares, which
 failures the verifier reports, and how its path texts relate to the places
 that staging uses.
 */
module PayloadVerifier {
  import opened Text
  import opened FileTree
  import opened Installer
  import opened PayloadPaths
  import opened PathText
  import opened Staging

  const ROOT_TEXT := "opt/buckyos"
  const DEFAULTS_TEXT := ROOT_TEXT + "/" + DEFAULTS_DIR
  const SYSTEMD_DIR := "etc" + "/" + "systemd"
  const UNIT_DIR := SYSTEMD_DIR + "/" + "system"
  const SYSTEMD := ["etc", SYSTEMD_DIR, UNIT_DIR, UNIT_DIR + "/" + "buckyos.service"]

  /** `normalize_item_relpath` */
  function ItemRel(rel: string): string {
    StripRight(StripLeft(Strip(rel), IsSlash), IsSlash)
  }

  function PrefixText(base: string, rel: string): string {
    base + "/" + ItemRel(rel)
  }

  // ---- The allowlist ----

  /** The prefixes declared by a list of item paths; empty ones declare nothing. */
  function Prefixes(base: string, rels: seq<string>, n: nat): seq<string>
    requires n <= |rels|
  {
    if n == 0 then []
    else Prefixes(base, rels, n - 1) + if ItemRel(rels[n - 1]) == "" then [] else [PrefixText(base, rels[n - 1])]
  }

  /** The directories above a path, nearest first. */
  function AncestorTexts(parts: seq<string>): seq<string> {
    if |parts| <= 1 then []
    else [Join(parts[..|parts| - 1], '/')] + AncestorTexts(parts[..|parts| - 1])
  }

  function AllAncestors(prefixes: seq<string>, n: nat): seq<string>
    requires n <= |prefixes|
  {
    if n == 0 then [] else AllAncestors(prefixes, n - 1) + AncestorTexts(Split(prefixes[n - 1], '/'))
  }

  function DeclaredPrefixes(l: Layout): seq<string> {
    Prefixes(ROOT_TEXT, l.modules, |l.modules|) + Prefixes(DEFAULTS_TEXT, l.data, |l.data|)
  }

  function DeclaredExact(l: Layout, systemd: bool): seq<string> {
    ["opt", ROOT_TEXT, DEFAULTS_TEXT]
    + AllAncestors(DeclaredPrefixes(l), |DeclaredPrefixes(l)|)
    + if systemd then SYSTEMD else []
  }

  lemma {:induction false} AllAncestorsConcat(a: seq<string>, q: string)
    ensures AllAncestors(a + [q], |a| + 1) == AllAncestors(a, |a|) + AncestorTexts(Split(q, '/'))
  {
    AllAncestorsPrefix(a, [q], |a|);
  }

  lemma {:induction false} AllAncestorsPrefix(a: seq<string>, b: seq<string>, n: nat)
    requires n <= |a|
    ensures AllAncestors(a + b, n) == AllAncestors(a, n)
  {
    if n > 0 {
      AllAncestorsPrefix(a, b, n - 1);
    }
  }

  class Allowlist {
    var prefixes: seq<string>
    var exact: seq<string>

    /** The directories above the prefixes so far are listed after the fixed paths. */
    ghost predicate Valid()
      reads this
    {
      exact == ["opt", ROOT_TEXT, DEFAULTS_TEXT] + AllAncestors(prefixes, |prefixes|)
    }

    constructor ()
      ensures prefixes == [] && Valid()
    {
      prefixes := [];
      exact := ["opt", ROOT_TEXT, DEFAULTS_TEXT];
    }

    method AddPrefix(prefix: string)
      requires Valid()
      modifies this
      ensures Valid() && prefixes == old(prefixes) + [prefix]
    {
      hide Join, Split;
      AllAncestorsConcat(prefixes, prefix);
      ghost var whole, start := Split(prefix, '/'), exact;
      prefixes := prefixes + [prefix];
      var parts := Split(prefix, '/');
      parts := parts[..|parts| - 1];
      ghost var rest := whole;
      while parts != []
        invariant rest != [] && parts == rest[..|rest| - 1]
        invariant prefixes == old(prefixes) + [prefix]
        invariant start + AncestorTexts(whole) == exact + AncestorTexts(rest)
        decreases |parts|
      {
        exact := exact + [Join(parts, '/')];
        rest := parts;
        parts := parts[..|parts| - 1];
      }
      assert exact == start + AncestorTexts(whole);
    }

    method AddItems(base: string, rels: seq<string>)
      requires Valid()
      modifies this
      ensures Valid() && prefixes == old(prefixes) + Prefixes(base, rels, |rels|)
    {
      for i := 0 to |rels|
        invariant Valid() && prefixes == old(prefixes) + Prefixes(base, rels, i)
      {
        if ItemRel(rels[i]) != "" {
          AddPrefix(PrefixText(base, rels[i]));
        }
      }
    }
  }

  /** `_linux_payload_allowlist` */
  method PayloadAllowlist(l: Layout, systemd: bool) returns (prefixes: seq<string>, exact: seq<string>)
    ensures prefixes == DeclaredPrefixes(l) && exact == DeclaredExact(l, systemd)
  {
    hide ItemRel, PrefixText, Split, AncestorTexts;
    var a := new Allowlist();
    a.AddItems(ROOT_TEXT, l.modules);
    a.AddItems(DEFAULTS_TEXT, l.data);
    assert a.prefixes == DeclaredPrefixes(l);
    if systemd {
      a.exact := a.exact + SYSTEMD;
    }
    return a.prefixes, a.exact;
  }

  // ---- The verdict ----

  datatype Failure =
    | Undeclared(paths: set<string>)
    | Artifact(name: string)
    | AtRealPath(rel: string)
    | MissingDefault(rel: string)

  /** Lower-casing of Unicode text. */
  type Lowering = string -> string

  const DESKTOP_ARTIFACTS := ["BuckyOS.app", "buckyosapp.exe"]

  predicate Contains(s: string, part: string) {
    exists i | 0 <= i <= |s| :: part <= s[i..]
  }

  /** The name occurs in some path, upper and lower case aside. */
  predicate Occurs(paths: seq<string>, name: string, lower: Lowering) {
    exists p | p in paths :: Contains(lower(p), lower(name))
  }

  function ArtifactFailures(paths: seq<string>, names: seq<string>, lower: Lowering, n: nat): seq<Failure>
    requires n <= |names|
  {
    if n == 0 then []
    else
      ArtifactFailures(paths, names, lower, n - 1)
      + if Occurs(paths, names[n - 1], lower) then [Artifact(names[n - 1])] else []
  }

  function NormalizeAll(paths: seq<string>): (r: seq<string>)
    ensures |r| == |paths|
  {
    seq(|paths|, i requires 0 <= i < |paths| => Normalize(paths[i]))
  }

  ghost function UndeclaredPaths(paths: seq<string>, l: Layout, systemd: bool): set<string> {
    set p | p in paths && !Allowed(p, DeclaredPrefixes(l), DeclaredExact(l, systemd)) :: Normalize(p)
  }

  predicate Present(paths: seq<string>, prefix: string) {
    exists p | p in paths :: Matches(p, prefix)
  }

  /** What is said of one data path: it must be in the defaults area and nowhere else. */
  function DataFailures(paths: seq<string>, rel: string): seq<Failure> {
    if ItemRel(rel) == "" then []
    else
      (if Present(paths, PrefixText(ROOT_TEXT, rel)) then [AtRealPath(rel)] else [])
      + (if Present(paths, PrefixText(DEFAULTS_TEXT, rel)) then [] else [MissingDefault(rel)])
  }

  function PerDataPath(paths: seq<string>, rels: seq<string>): (r: seq<seq<Failure>>)
    ensures |r| == |rels|
  {
    seq(|rels|, i requires 0 <= i < |rels| => DataFailures(paths, rels[i]))
  }

  function Flatten(parts: seq<seq<Failure>>, n: nat): seq<Failure>
    requires n <= |parts|
  {
    if n == 0 then [] else Flatten(parts, n - 1) + parts[n - 1]
  }

  ghost function UndeclaredFailures(normal: seq<string>, l: Layout, systemd: bool): seq<Failure> {
    var undeclared := UndeclaredPaths(normal, l, systemd);
    if undeclared == {} then [] else [Undeclared(undeclared)]
  }

  /** The whole report, in order. */
  ghost function Failures(paths: seq<string>, l: Layout, systemd: bool, lower: Lowering): seq<Failure> {
    var normal := NormalizeAll(paths);
    UndeclaredFailures(normal, l, systemd)
    + ArtifactFailures(normal, DESKTOP_ARTIFACTS, lower, |DESKTOP_ARTIFACTS|)
    + Flatten(PerDataPath(normal, l.data), |l.data|)
  }

  method CheckUndeclared(normal: seq<string>, l: Layout, systemd: bool) returns (failures: seq<Failure>)
    ensures failures == UndeclaredFailures(normal, l, systemd)
  {
    var prefixes, exact := PayloadAllowlist(l, systemd);
    var undeclared := UnexpectedPaths(normal, prefixes, exact);
    return if undeclared == {} then [] else [Undeclared(undeclared)];
  }

  method CheckDataPath(normal: seq<string>, rel: string) returns (failures: seq<Failure>)
    ensures failures == DataFailures(normal, rel)
  {
    hide Present, ItemRel, PrefixText;
    failures := [];
    if ItemRel(rel) == "" {
      return;
    }
    if Present(normal, PrefixText(ROOT_TEXT, rel)) {
      failures := failures + [AtRealPath(rel)];
    }
    if !Present(normal, PrefixText(DEFAULTS_TEXT, rel)) {
      failures := failures + [MissingDefault(rel)];
    }
  }

  method CheckData(normal: seq<string>, rels: seq<string>) returns (failures: seq<Failure>)
    ensures failures == Flatten(PerDataPath(normal, rels), |rels|)
  {
    hide DataFailures;
    failures := [];
    ghost var parts := PerDataPath(normal, rels);
    for i := 0 to |rels|
      invariant failures == Flatten(parts, i)
    {
      var more := CheckDataPath(normal, rels[i]);
      assert more == parts[i];
      failures := failures + more;
    }
  }

  method CheckArtifacts(normal: seq<string>, names: seq<string>, lower: Lowering) returns (failures: seq<Failure>)
    ensures failures == ArtifactFailures(normal, names, lower, |names|)
  {
    failures := [];
    for i := 0 to |names|
      invariant failures == ArtifactFailures(normal, names, lower, i)
    {
      if Occurs(normal, names[i], lower) {
        failures := failures + [Artifact(names[i])];
      }
    }
  }

  /** `_verify_linux_payload_contract` */
  method VerifyPayload(paths: seq<string>, l: Layout, systemd: bool, lower: Lowering) returns (failures: seq<Failure>)
    ensures failures == Failures(paths, l, systemd, lower)
  {
    hide UndeclaredFailures, ArtifactFailures, PerDataPath;
    var normal := NormalizeAll(paths);
    var undeclared := CheckUndeclared(normal, l, systemd);
    var artifacts := CheckArtifacts(normal, DESKTOP_ARTIFACTS, lower);
    var data := CheckData(normal, l.data);
    failures := undeclared + artifacts + data;
  }

  // ---- Item paths ----

  /** The segments an item path stands for. */
  function RelSegments(rel: string): (r: Path)
    ensures |r| >= 1
  {
    Split(ItemRel(rel), '/')
  }

  /**
   An item path that staging and the verifier read alike: segments that stay where
   they are put, the last without a blank at its end.
   */
  ghost predicate Plain(rel: string) {
    && StageRel(rel) == ItemRel(rel)
    && (forall i | 0 <= i < |RelSegments(rel)| :: NormalSegment(RelSegments(rel)[i]))
    && SolidEnd(RelSegments(rel)[|RelSegments(rel)| - 1])
  }

  lemma {:induction false} ResolveNormal(base: Path, parts: seq<string>)
    requires forall i | 0 <= i < |parts| :: NormalSegment(parts[i])
    ensures Resolve(base, parts) == base + parts
    decreases |parts|
  {
    if parts != [] {
      assert NormalSegment(parts[0]);
      ResolveNormal(base + [parts[0]], parts[1..]);
      assert base + [parts[0]] + parts[1..] == base + parts;
    } else {
      assert base + parts == base;
    }
  }

  /** Staging puts a plain item where its segments say. */
  lemma PlainDst(base: Path, rel: string)
    requires Plain(rel)
    ensures StageDst(base, rel) == Some(base + RelSegments(rel)) && ItemRel(rel) != ""
  {
    var parts := RelSegments(rel);
    assert NormalSegment(parts[0]);
    ResolveNormal(base, parts);
  }

  /** The verifier's prefix for a plain item is the text of where staging puts it. */
  lemma PlainPrefix(base: Path, text: string, rel: string)
    requires Plain(rel) && NormalPath(base) && Join(base, '/') == text
    ensures PrefixText(text, rel) == Join(base + RelSegments(rel), '/')
    ensures NormalPath(base + RelSegments(rel))
  {
    JoinConcat(base, RelSegments(rel), '/');
    JoinSplit(ItemRel(rel), '/');
    var q := base + RelSegments(rel);
    forall i | 0 <= i < |q| ensures TreeSegment(q[i]) {
      if i >= |base| {
        assert NormalSegment(RelSegments(rel)[i - |base|]);
      }
    }
    assert q[|q| - 1] == RelSegments(rel)[|RelSegments(rel)| - 1];
  }

  lemma DirNames()
    ensures TreeSegment("opt") && TreeSegment("buckyos") && TreeSegment(DEFAULTS_DIR)
    ensures SolidEnd("opt") && SolidEnd("buckyos") && SolidEnd(DEFAULTS_DIR)
  {
  }

  lemma Constants()
    ensures Join(ROOT, '/') == ROOT_TEXT && Join(DEFAULTS, '/') == DEFAULTS_TEXT
    ensures NormalPath(["opt"]) && NormalPath(ROOT) && NormalPath(DEFAULTS)
  {
    DirNames();
    assert ROOT_TEXT == "opt" + "/" + "buckyos";
    assert ROOT[1..] == ["buckyos"];
    JoinConcat(ROOT, [DEFAULTS_DIR], '/');
    assert DEFAULTS == ROOT + [DEFAULTS_DIR];
  }
}
