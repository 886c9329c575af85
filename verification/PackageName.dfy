/**
 Package file names: building one from its parts, and inferring the parts from
 one. Names hold no newline.
 */
module PackageName {
  import opened Text

  datatype Info = Info(platform: string, arch: string, version: string, format: string)

  /** One alternative of the name patterns: what comes before the architecture, and the format. */
  datatype Shape = Shape(head: string, format: string, platform: string)

  const SHAPES: seq<Shape> := [
    Shape("buckyos-linux-", "deb", "linux"), Shape("buckyos-linux-", "rpm", "linux"),
    Shape("buckyos-macos-", "pkg", "macos"), Shape("buckyos-apple-", "pkg", "macos"),
    Shape("buckyos-windows-", "exe", "windows"), Shape("buckyos-win-", "exe", "windows")
  ]

  // ---- Building ----

  /** `canonical_arch` */
  function CanonicalArch(raw: string): (r: Option<string>)
    ensures r.Some? ==> r.value == "amd64" || r.value == "arm64"
  {
    var arch := Lower(Strip(raw));
    if arch == "x86_64" || arch == "amd64" then Some("amd64")
    else if arch == "arm64" || arch == "aarch64" then Some("arm64")
    else None
  }

  function Tail(version: string, format: string): string {
    version + ("." + format)
  }

  function Rest(arch: string, tail: string): string {
    arch + ("-" + tail)
  }

  function Build(s: Shape, arch: string, version: string): string {
    s.head + Rest(arch, Tail(version, s.format))
  }

  /** The shape built for a target, if it is supported. */
  function Target(platform: string, format: string): (r: Option<nat>)
    ensures r.Some? ==> r.value < |SHAPES| && SHAPES[r.value].platform == platform && SHAPES[r.value].format == format
  {
    if platform == "windows" && format == "exe" then Some(4)
    else if platform == "macos" && format == "pkg" then Some(2)
    else if platform == "linux" && format == "deb" then Some(0)
    else if platform == "linux" && format == "rpm" then Some(1)
    else None
  }

  /** `package_filename` */
  function PackageFilename(platform: string, architecture: string, version: string, format: string): Option<string> {
    var arch, target := CanonicalArch(architecture), Target(platform, format);
    if arch.None? || target.None? then None else Some(Build(SHAPES[target.value], arch.value, version))
  }

  /** The architecture as the name has it: for all spellings, blanks and capitals aside. */
  ghost function ArchName(raw: string): Option<string> {
    var arch := Lower(Strip(raw));
    if arch in ["x86_64", "amd64"] then Some("amd64") else if arch in ["arm64", "aarch64"] then Some("arm64") else None
  }

  ghost predicate Supported(platform: string, format: string) {
    (platform, format) in [("windows", "exe"), ("macos", "pkg"), ("linux", "deb"), ("linux", "rpm")]
  }

  /** The name of every package, and the targets that have one. */
  lemma FilenameIs(platform: string, architecture: string, version: string, format: string)
    ensures PackageFilename(platform, architecture, version, format) ==
      if ArchName(architecture).None? || !Supported(platform, format) then None
      else Some("buckyos-" + platform + "-" + ArchName(architecture).value + "-" + version + "." + format)
  {
    assert CanonicalArch(architecture) == ArchName(architecture);
    hide CanonicalArch, ArchName;
    var t := Target(platform, format);
    assert t.Some? <==> Supported(platform, format);
    if t.Some? {
      HeadIs(t.value);
      BuildIs(SHAPES[t.value], ArchName(architecture), version);
    }
  }

  lemma BuildIs(s: Shape, arch: Option<string>, version: string)
    ensures arch.Some? ==> Build(s, arch.value, version) == s.head + arch.value + "-" + version + "." + s.format
  {
    if arch.Some? {
      var rest := "-" + Tail(version, s.format);
      assert s.head + (arch.value + rest) == s.head + arch.value + rest;
      assert rest == "-" + version + "." + s.format;
    }
  }

  lemma HeadIs(k: nat)
    requires k == 0 || k == 1 || k == 2 || k == 4
    ensures SHAPES[k].head == "buckyos-" + SHAPES[k].platform + "-"
  {
  }

  // ---- Inferring ----

  predicate KnownArch(arch: string) {
    arch == "amd64" || arch == "arm64" || arch == "aarch64"
  }

  /** The architecture a text starts with, before a dash. */
  function LeadingArch(s: string): (r: Option<string>)
    ensures r.Some? ==> KnownArch(r.value) && |r.value| < |s| && s == Rest(r.value, s[|r.value| + 1..])
  {
    if "amd64-" <= s then Some("amd64")
    else if "arm64-" <= s then Some("arm64")
    else if "aarch64-" <= s then Some("aarch64")
    else None
  }

  /** The version in front of a format; it is never empty. */
  function LeadingVersion(tail: string, format: string): (r: Option<string>)
    ensures r.Some? ==> r.value != "" && tail == Tail(r.value, format)
  {
    var k := |tail| - |format| - 1;
    if k <= 0 || tail[k..] != "." + format then None else Some(tail[..k])
  }

  /** Matching a name against one alternative. */
  function Match(s: Shape, name: string): Option<Info> {
    if !(s.head <= name) then None
    else
      var arch := LeadingArch(name[|s.head|..]);
      if arch.None? then None
      else
        var version := LeadingVersion(name[|s.head|..][|arch.value| + 1..], s.format);
        if version.None? then None else Some(Info(s.platform, arch.value, version.value, s.format))
  }

  /** What is matched is the name built from the parts. */
  lemma MatchIsBuild(s: Shape, name: string)
    requires Match(s, name).Some?
    ensures
      var i := Match(s, name).value;
      && name == Build(s, i.arch, i.version) && KnownArch(i.arch) && i.version != ""
      && i.platform == s.platform && i.format == s.format
  {
    assert name == s.head + name[|s.head|..];
  }

  lemma LeadingArchIs(arch: string, tail: string)
    requires KnownArch(arch)
    ensures LeadingArch(Rest(arch, tail)) == Some(arch) && Rest(arch, tail)[|arch| + 1..] == tail
  {
    var t := Rest(arch, tail);
    assert t == (arch + "-") + tail;
    assert t[1] == arch[1];
    assert "amd64-"[1] == 'm' && "arm64-"[1] == 'r' && "aarch64-"[1] == 'a';
  }

  lemma LeadingVersionIs(version: string, format: string)
    requires version != ""
    ensures LeadingVersion(Tail(version, format), format) == Some(version)
  {
    var t := Tail(version, format);
    assert t[|version|..] == "." + format && t[..|version|] == version;
  }

  /** A built name matches its own alternative, and gives its parts back. */
  lemma MatchBuild(s: Shape, arch: string, version: string)
    requires KnownArch(arch) && version != ""
    ensures Match(s, Build(s, arch, version)) == Some(Info(s.platform, arch, version, s.format))
  {
    var rest := Rest(arch, Tail(version, s.format));
    assert (s.head + rest)[|s.head|..] == rest;
    LeadingArchIs(arch, Tail(version, s.format));
    LeadingVersionIs(version, s.format);
  }

  // ---- The alternatives exclude each other ----

  /** Tells the alternatives apart: the letter after "buckyos-", the fourth letter after it, and the last letter. */
  function Sign(name: string): (char, char, char)
    requires |name| >= 12
  {
    (name[8], name[11], name[|name| - 1])
  }

  function SignAt(i: nat): (char, char, char) {
    if i == 0 then ('l', 'u', 'b') else if i == 1 then ('l', 'u', 'm') else if i == 2 then ('m', 'o', 'g')
    else if i == 3 then ('a', 'l', 'g') else if i == 4 then ('w', 'd', 'e') else ('w', '-', 'e')
  }

  lemma SignOfBuild(i: nat, arch: string, version: string)
    requires i < |SHAPES|
    ensures |Build(SHAPES[i], arch, version)| >= 12 && Sign(Build(SHAPES[i], arch, version)) == SignAt(i)
  {
    var s := SHAPES[i];
    var name := Build(s, arch, version);
    assert name[8] == s.head[8] && name[11] == s.head[11];
    assert name[|name| - 1] == s.format[2];
  }

  /** Names built from different alternatives differ. */
  lemma BuildsDiffer(i: nat, a: string, v: string, k: nat, b: string, w: string)
    requires i < |SHAPES| && k < |SHAPES| && Build(SHAPES[i], a, v) == Build(SHAPES[k], b, w)
    ensures i == k
  {
    SignOfBuild(i, a, v);
    SignOfBuild(k, b, w);
    assert SignAt(i) == SignAt(k);
  }

  lemma ShapesExclude(i: nat, k: nat, name: string)
    requires i < |SHAPES| && k < |SHAPES| && Match(SHAPES[i], name).Some? && Match(SHAPES[k], name).Some?
    ensures i == k
  {
    MatchIsBuild(SHAPES[i], name);
    MatchIsBuild(SHAPES[k], name);
    var a, b := Match(SHAPES[i], name).value, Match(SHAPES[k], name).value;
    BuildsDiffer(i, a.arch, a.version, k, b.arch, b.version);
  }

  /** The system in a name, its format, and the platform it stands for. */
  ghost const SYSTEMS := [
    ("linux", "deb", "linux"), ("linux", "rpm", "linux"), ("macos", "pkg", "macos"), ("apple", "pkg", "macos"),
    ("windows", "exe", "windows"), ("win", "exe", "windows")]

  lemma ShapeIs(k: nat)
    requires k < |SHAPES|
    ensures
      var (system, format, platform) := SYSTEMS[k];
      SHAPES[k].head == "buckyos-" + system + "-" && SHAPES[k].format == format && SHAPES[k].platform == platform
  {
  }

  /** The name as its parts give it, for the `k`th system. */
  ghost predicate Named(k: nat, i: Info, name: string)
    requires k < |SYSTEMS|
  {
    var (system, format, platform) := SYSTEMS[k];
    && i.platform == platform && i.format == format && i.version != "" && i.arch in ["amd64", "arm64", "aarch64"]
    && name == "buckyos-" + system + "-" + i.arch + "-" + i.version + "." + format
  }

  /** What is inferred from a name: exactly the parts that it is made of. */
  lemma MatchIff(k: nat, i: Info, name: string)
    requires k < |SHAPES|
    ensures |SYSTEMS| == |SHAPES| && (Match(SHAPES[k], name) == Some(i) <==> Named(k, i, name))
  {
    var s := SHAPES[k];
    ShapeIs(k);
    BuildIs(s, Some(i.arch), i.version);
    if Match(s, name) == Some(i) {
      MatchIsBuild(s, name);
    }
    if Named(k, i, name) {
      MatchBuild(s, i.arch, i.version);
    }
  }

  /** `infer_from_filename`: the first alternative that matches. */
  method InferFromFilename(name: string) returns (r: Option<Info>)
    ensures r.Some? ==> exists i :: 0 <= i < |SHAPES| && Match(SHAPES[i], name) == r
    ensures r.None? ==> forall i | 0 <= i < |SHAPES| :: Match(SHAPES[i], name).None?
    ensures forall i | 0 <= i < |SHAPES| && Match(SHAPES[i], name).Some? :: Match(SHAPES[i], name) == r
  {
    for i := 0 to |SHAPES|
      invariant forall k | 0 <= k < i :: Match(SHAPES[k], name).None?
    {
      r := Match(SHAPES[i], name);
      if r.Some? {
        forall k | 0 <= k < |SHAPES| && Match(SHAPES[k], name).Some? ensures k == i {
          ShapesExclude(i, k, name);
        }
        return;
      }
    }
    return None;
  }

  /** For every supported target and version, exactly one alternative matches the built name, and gives it back. */
  lemma FilenameRoundTrip(platform: string, architecture: string, version: string, format: string, k: nat)
    requires PackageFilename(platform, architecture, version, format).Some? && version != "" && k < |SHAPES|
    ensures
      var name := PackageFilename(platform, architecture, version, format).value;
      Match(SHAPES[k], name) ==
        if Target(platform, format) != Some(k) then None
        else Some(Info(platform, CanonicalArch(architecture).value, version, format))
  {
    var i := Target(platform, format).value;
    var arch := CanonicalArch(architecture).value;
    MatchBuild(SHAPES[i], arch, version);
    if Match(SHAPES[k], Build(SHAPES[i], arch, version)).Some? {
      ShapesExclude(i, k, Build(SHAPES[i], arch, version));
    }
  }

  /** The alternative that is built for the target of the `k`th: its own, or the platform's first name. */
  lemma TargetOf(k: nat)
    requires k < |SHAPES|
    ensures Target(SHAPES[k].platform, SHAPES[k].format) == Some(if k == 3 then 2 else if k == 5 then 4 else k)
  {
    assert "deb"[0] == 'd' && "rpm"[0] == 'r';
  }

  lemma CanonicalIs(arch: string)
    requires KnownArch(arch)
    ensures CanonicalArch(arch) == Some(if arch == "aarch64" then "arm64" else arch)
  {
    StripTrimmed(arch);
    assert Lower(arch) == arch;
  }

  /** What is inferred builds the name again exactly under the platform's own name and a canonical architecture. */
  lemma InferredBuilds(k: nat, name: string)
    requires k < |SHAPES| && Match(SHAPES[k], name).Some?
    ensures
      var i := Match(SHAPES[k], name).value;
      PackageFilename(i.platform, i.arch, i.version, i.format) == Some(name) <==>
        k != 3 && k != 5 && i.arch != "aarch64"
  {
    var i := Match(SHAPES[k], name).value;
    MatchIsBuild(SHAPES[k], name);
    CanonicalIs(i.arch);
    TargetOf(k);
    var t := Target(i.platform, i.format).value;
    var arch := CanonicalArch(i.arch).value;
    var again := Build(SHAPES[t], arch, i.version);
    if again == name {
      BuildsDiffer(t, arch, i.version, k, i.arch, i.version);
      assert |again| == |name| - |i.arch| + |arch|;
    }
  }
}
