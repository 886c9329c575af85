/**
 A file system as a map from segment lists to nodes, with the operations the
 packaging scripts use: making directories, removing a path, and copying a
 source tree while leaving out ignored names.
 */
module FileTree {
  type Path = seq<string>

  datatype Node = Dir | File(content: string)

  type Tree = map<Path, Node>

  /** `p` is a proper ancestor of `q`. */
  predicate Above(p: Path, q: Path) {
    p < q
  }

  /** Every path has the directories above it in the tree. */
  ghost predicate WellFormed(t: Tree) {
    forall p, q | q in t && Above(p, q) :: p in t && t[p].Dir?
  }

  /** The two trees hold the same thing, or nothing, at `p`. */
  ghost predicate SameAt(t: Tree, u: Tree, p: Path) {
    (p in t <==> p in u) && (p in t ==> t[p] == u[p])
  }

  function Parent(p: Path): Path {
    if p == [] then [] else p[..|p| - 1]
  }

  /** The path itself and every directory above it. */
  function Ancestors(p: Path): set<Path> {
    if p == [] then {[]} else Ancestors(Parent(p)) + {p}
  }

  lemma {:induction false} AncestorsArePrefixes(p: Path, q: Path)
    ensures q in Ancestors(p) <==> q <= p
  {
    if p != [] {
      AncestorsArePrefixes(Parent(p), q);
      assert q <= p <==> q == p || q <= Parent(p);
    }
  }

  /** `mkdir(parents=True, exist_ok=True)` succeeds: no file stands on the way. */
  predicate CanMakeDirs(t: Tree, p: Path) {
    forall q | q in t && q <= p :: t[q].Dir?
  }

  function MakeDirs(t: Tree, p: Path): Tree {
    t + map q | q in Ancestors(p) && q !in t :: Dir
  }

  /** Removes a file, or a directory with everything below it. */
  function Remove(t: Tree, p: Path): Tree {
    map q | q in t && !(p <= q) :: t[q]
  }

  /** Puts the nodes of `image`, all at or below `p`, in place of what was there. */
  function Graft(t: Tree, p: Path, image: Tree): Tree {
    Remove(t, p) + image
  }

  /** A tree of its own that hangs at `p`. */
  ghost predicate HangsAt(image: Tree, p: Path) {
    && p in image
    && (forall q | q in image :: p <= q)
    && (forall a, q | q in image && Above(a, q) && p <= a :: a in image && image[a].Dir?)
  }

  /** A rooted tree moved so that it hangs at `p`. */
  function Shift(p: Path, nodes: Tree): Tree {
    map q | q in (set r | r in nodes :: p + r) :: nodes[q[|p|..]]
  }

  lemma ShiftAt(p: Path, nodes: Tree, q: Path)
    ensures q in Shift(p, nodes) <==> p <= q && q[|p|..] in nodes
    ensures q in Shift(p, nodes) ==> Shift(p, nodes)[q] == nodes[q[|p|..]]
  {
    if p <= q {
      assert q == p + q[|p|..];
    }
  }

  lemma ShiftHangs(p: Path, nodes: Tree)
    requires WellFormed(nodes) && [] in nodes
    ensures HangsAt(Shift(p, nodes), p)
  {
    var image := Shift(p, nodes);
    assert p + [] == p && p[|p|..] == [];
    ShiftAt(p, nodes, p);
    forall q | q in image ensures p <= q {
      ShiftAt(p, nodes, q);
    }
    forall a, q | q in image && Above(a, q) && p <= a ensures a in image && image[a].Dir? {
      ShiftAt(p, nodes, a);
      ShiftAt(p, nodes, q);
      assert Above(a[|p|..], q[|p|..]);
    }
  }

  lemma MakeDirsAt(t: Tree, p: Path, q: Path)
    ensures q in MakeDirs(t, p) <==> q in t || q <= p
    ensures q in t ==> MakeDirs(t, p)[q] == t[q]
    ensures q !in t && q <= p ==> MakeDirs(t, p)[q] == Dir
  {
    AncestorsArePrefixes(p, q);
  }

  lemma GraftAt(t: Tree, p: Path, image: Tree, q: Path)
    requires HangsAt(image, p)
    ensures p <= q ==> SameAt(Graft(t, p, image), image, q)
    ensures !(p <= q) ==> SameAt(Graft(t, p, image), t, q)
  {
  }

  lemma ParentIsAbove(p: Path, q: Path)
    requires p != []
    ensures q <= Parent(p) <==> Above(q, p)
  {
  }

  /** A tree to copy from: rooted at [], with the name it has where it came from. */
  datatype Source = Source(name: string, nodes: Tree)

  const IgnoredNames := {".DS_Store", "__pycache__"}

  predicate Kept(r: Path) {
    forall i | 0 <= i < |r| :: r[i] !in IgnoredNames
  }

  /** What a copy of the source contains: everything but ignored names below its root. */
  function Image(s: Source): Tree {
    map r | r in s.nodes && Kept(r) :: s.nodes[r]
  }

  lemma ImageWellFormed(s: Source)
    requires WellFormed(s.nodes)
    ensures WellFormed(Image(s))
    ensures [] in s.nodes ==> [] in Image(s) && Image(s)[[]] == s.nodes[[]]
  {
    forall p, q | q in Image(s) && Above(p, q) ensures p in Image(s) && Image(s)[p].Dir? {
      assert forall i | 0 <= i < |p| :: p[i] == q[i];
    }
  }

  lemma MakeDirsWellFormed(t: Tree, p: Path)
    requires WellFormed(t) && CanMakeDirs(t, p)
    ensures WellFormed(MakeDirs(t, p))
  {
    var u := MakeDirs(t, p);
    forall a, b | b in u && Above(a, b) ensures a in u && u[a].Dir? {
      MakeDirsAt(t, p, a);
      MakeDirsAt(t, p, b);
      AncestorsArePrefixes(p, a);
    }
  }

  /** Grafting keeps a tree well-formed when the directories above are there. */
  lemma GraftWellFormed(t: Tree, p: Path, image: Tree)
    requires WellFormed(t) && HangsAt(image, p)
    requires forall q | Above(q, p) :: q in t && t[q].Dir?
    ensures WellFormed(Graft(t, p, image))
  {
    var u := Graft(t, p, image);
    forall a, b | b in u && Above(a, b) ensures a in u && u[a].Dir? {
      GraftAt(t, p, image, a);
      GraftAt(t, p, image, b);
      if p <= b {
        PrefixesCompare(p, a, b);
      }
    }
  }

  /** Two prefixes of one path are comparable. */
  lemma PrefixesCompare(a: Path, b: Path, q: Path)
    requires a <= q && b <= q
    ensures a <= b || Above(b, a)
  {
    if |a| <= |b| {
      assert a == b[..|a|];
    } else {
      assert b == a[..|b|];
    }
  }
}
