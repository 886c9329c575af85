/**
 Tree paths written as text and read back through normalisation: what becomes of
 each segment, blanks at the ends of segments included.
 */
module PathText {
  import opened Text
  import opened FileTree
  import opened PayloadPaths

  /** A segment that splitting and filtering leave whole. */
  ghost predicate TreeSegment(x: string) {
    x != "" && x != "." && '/' !in x && '\\' !in x
  }

  /** ... and that path resolution leaves in place. */
  ghost predicate NormalSegment(x: string) {
    TreeSegment(x) && x != ".."
  }

  /** A path whose text does not start with anything that normalising strips. */
  ghost predicate ProperPath(q: Path) {
    q != [] && (forall i | 0 <= i < |q| :: TreeSegment(q[i])) && !Blank(q[0][0]) && q[0][0] != '.'
  }

  /** ... and does not end with it either. */
  ghost predicate NormalPath(q: Path) {
    ProperPath(q) && SolidEnd(q[|q| - 1])
  }

  /** What normalising makes of the last segment: blanks at its end go, and it goes itself if nothing is left. */
  function Blunt(q: Path): Path
    requires q != []
  {
    var k := |q| - 1;
    var r := StripRight(q[k], Blank);
    if Real(r) then q[..k] + [r] else q[..k]
  }

  lemma {:induction false} StripRightConcat(u: string, x: string, f: char -> bool)
    ensures StripRight(u + x, f) == if StripRight(x, f) == "" then StripRight(u, f) else u + StripRight(x, f)
    decreases |x|
  {
    if x == "" {
      assert u + x == u;
    } else {
      var y := x[..|x| - 1];
      assert (u + x)[..|u + x| - 1] == u + y;
      StripRightConcat(u, y, f);
    }
  }

  lemma JoinEnd(a: Path, x: string)
    ensures Join(a + [x], '/') == if a == [] then x else Join(a, '/') + ['/'] + x
  {
    if a == [] {
      assert a + [x] == [x];
    } else {
      JoinConcat(a, [x], '/');
    }
  }

  lemma ProperChars(q: Path)
    requires ProperPath(q)
    ensures Join(q, '/') != "" && Join(q, '/')[0] == q[0][0] && '\\' !in Join(q, '/')
  {
    forall i | 0 <= i < |q| ensures q[i] != "" && '\\' !in q[i] {
      assert TreeSegment(q[i]);
    }
    JoinEnds(q);
    if '\\' in Join(q, '/') {
      JoinChars(q, '\\');
    }
  }

  /** The text after blanks at its end are gone. */
  lemma StrippedText(a: Path, x: string)
    requires a != [] || StripRight(x, Blank) != ""
    ensures
      var r := StripRight(x, Blank);
      StripRight(Join(a + [x], '/'), Blank) == if r == "" then Join(a, '/') + ['/'] else Join(a + [r], '/')
  {
    var r := StripRight(x, Blank);
    JoinEnd(a, x);
    JoinEnd(a, r);
    if a != [] {
      var u := Join(a, '/') + ['/'];
      StripRightConcat(u, x, Blank);
      assert u[|u| - 1] == '/';
    }
  }

  lemma BareText(q: Path)
    requires ProperPath(q)
    ensures
      var a, r := q[..|q| - 1], StripRight(q[|q| - 1], Blank);
      Bare(Join(q, '/')) == if r == "" then Join(a, '/') + ['/'] else Join(a + [r], '/')
  {
    var a, x := q[..|q| - 1], q[|q| - 1];
    var r := StripRight(x, Blank);
    var s := Join(q, '/');
    ProperChars(q);
    StripRightLaws(x, Blank);
    assert q == a + [x];
    StrippedText(a, x);
    StripRightLaws(s, Blank);
    var t := Strip(s);
    assert t == StripRight(s, Blank);
    assert t != "" && t[0] == s[0];
    assert Slashes(t) == t;
  }

  lemma RealsOne(r: string)
    ensures Reals([r]) == if Real(r) then [r] else []
  {
    assert [r][1..] == [];
  }

  lemma RealsEnd(a: Path, r: string)
    requires forall i | 0 <= i < |a| :: TreeSegment(a[i])
    ensures Reals(a + [r]) == if Real(r) then a + [r] else a
  {
    forall i | 0 <= i < |a| ensures Real(a[i]) {
      assert TreeSegment(a[i]);
    }
    RealsOfReal(a);
    RealsConcat(a, [r]);
    RealsOne(r);
    hide Reals, TreeSegment;
    assert a + [] == a;
  }

  lemma PartsOfText(a: Path, r: string)
    requires forall i | 0 <= i < |a| :: TreeSegment(a[i])
    requires '/' !in r && (r == "" ==> a != [])
    ensures Split(if r == "" then Join(a, '/') + ['/'] else Join(a + [r], '/'), '/') == a + [r]
  {
    forall i | 0 <= i < |a| ensures '/' !in a[i] {
      assert TreeSegment(a[i]);
    }
    if r == "" {
      SplitConcat(Join(a, '/'), "", '/');
      SplitJoin(a, '/');
      assert Split("", '/') == [""];
      hide Join, Split;
      assert Join(a, '/') + ['/'] + "" == Join(a, '/') + ['/'];
    } else {
      SplitJoin(a + [r], '/');
    }
  }

  lemma BluntIsProper(q: Path)
    requires ProperPath(q)
    ensures Blunt(q) != [] && ProperPath(Blunt(q))
  {
    var k := |q| - 1;
    var r := StripRight(q[k], Blank);
    StripRightLaws(q[k], Blank);
    assert TreeSegment(q[k]);
    if k == 0 {
      assert r != "" && r[0] == q[0][0];
    }
  }

  /** Normalising the text of a proper path blunts its last segment. */
  lemma BluntText(q: Path)
    requires ProperPath(q)
    ensures Blunt(q) != [] && ProperPath(Blunt(q))
    ensures Segments(Normalize(Join(q, '/'))) == Blunt(q) && Normalize(Join(q, '/')) == Join(Blunt(q), '/')
  {
    var a, r := q[..|q| - 1], StripRight(q[|q| - 1], Blank);
    BareText(q);
    PartsOfBare(Join(q, '/'));
    BluntIsProper(q);
    StripRightLaws(q[|q| - 1], Blank);
    assert TreeSegment(q[|q| - 1]);
    hide Bare, Normalize, Join, StripRight, Split, Reals;
    PartsOfText(a, r);
    RealsEnd(a, r);
    TextOfSegments(Normalize(Join(q, '/')));
  }

  lemma TextOfSegments(s: string)
    ensures Join(Segments(s), '/') == s
  {
    JoinSplit(s, '/');
  }

  /** How the text of a proper path is read: blunted twice. */
  lemma ReadText(q: Path)
    requires ProperPath(q)
    ensures Blunt(q) != [] && ProperPath(Blunt(q)) && Read(Join(q, '/')) == Blunt(Blunt(q))
  {
    assert q != [];
    hide Normalize, Join, Segments, Blunt, ProperPath;
    BluntText(q);
    BluntText(Blunt(q));
  }

  /** A solid end is not blunted. */
  lemma BluntSolid(q: Path)
    requires NormalPath(q)
    ensures Blunt(q) == q
  {
    assert TreeSegment(q[|q| - 1]);
    assert q == q[..|q| - 1] + [q[|q| - 1]];
  }

  /** What is blunted is solid, or one segment shorter. */
  lemma BluntOnce(q: Path)
    requires ProperPath(q)
    ensures NormalPath(Blunt(q)) || (|q| > 1 && Blunt(q) == q[..|q| - 1])
  {
    BluntIsProper(q);
    StripRightLaws(q[|q| - 1], Blank);
  }

  /** The text of a normal path is settled, and its parts are the segments. */
  lemma NormalText(q: Path)
    requires NormalPath(q)
    ensures Settled(Join(q, '/')) && Split(Join(q, '/'), '/') == q
  {
    BluntText(q);
    BluntSolid(q);
    ProperChars(q);
  }

  lemma PrefixIsProper(q: Path, dst: Path)
    requires ProperPath(dst) && q != [] && q <= dst
    ensures ProperPath(q)
  {
    forall i | 0 <= i < |q| ensures TreeSegment(q[i]) {
      assert q[i] == dst[i];
    }
  }

  lemma JoinUnder(q: Path, dst: Path)
    requires dst != [] && dst <= q
    ensures Under(Join(q, '/'), Join(dst, '/'))
  {
    if q != dst {
      assert q == dst + q[|dst|..];
      JoinConcat(dst, q[|dst|..], '/');
    } else {
      assert q == dst;
    }
  }

  /** However often it is normalised, the text of a path under a normal place is read as under that place. */
  lemma ReadUnder(q: Path, dst: Path)
    requires NormalPath(dst) && dst <= q
    ensures dst <= Read(Join(q, '/')) && dst <= Read(Normalize(Join(q, '/')))
  {
    var s, t := Join(q, '/'), Join(dst, '/');
    NormalText(dst);
    JoinUnder(q, dst);
    hide Join, NormalPath;
    NormalizeUnder(s, t);
    NormalizeUnder(Normalize(s), t);
    NormalizeUnder(Normalize(Normalize(s)), t);
    hide Normalize;
    UnderIff(Normalize(Normalize(s)), t);
    UnderIff(Normalize(Normalize(Normalize(s))), t);
  }
}
