/**
 Merging publish dependencies into a project record: items are added once per
 target and source, and each dependency is recorded once, with the platforms it
 was merged for.
 */
module ManifestMerge {
  import opened Text

  // ---- Lists that take each key once ----

  predicate Holds<T, K(==)>(key: T -> K, items: seq<T>, k: K) {
    exists i | 0 <= i < |items| :: key(items[i]) == k
  }

  /** Adds an element unless one with its key is there. */
  function Append<T, K(==)>(key: T -> K, items: seq<T>, x: T): seq<T> {
    if Holds(key, items, key(x)) then items else items + [x]
  }

  function AppendAll<T, K(==)>(key: T -> K, items: seq<T>, xs: seq<T>): seq<T> {
    if xs == [] then items else Append(key, AppendAll(key, items, xs[..|xs| - 1]), xs[|xs| - 1])
  }

  /** The `i`th of `xs` is the first with its key, in `xs` and after `items`. */
  predicate IsNew<T, K(==)>(key: T -> K, items: seq<T>, xs: seq<T>, i: int)
    requires 0 <= i < |xs|
  {
    !Holds(key, items, key(xs[i])) && !Holds(key, xs[..i], key(xs[i]))
  }

  /** The new ones among the first `n` of `xs`, in order. */
  function NewOnes<T, K(==)>(key: T -> K, items: seq<T>, xs: seq<T>, n: nat): seq<T>
    requires n <= |xs|
  {
    if n == 0 then []
    else NewOnes(key, items, xs, n - 1) + if IsNew(key, items, xs, n - 1) then [xs[n - 1]] else []
  }

  lemma {:induction false} NewOnesPrefix<T, K>(key: T -> K, items: seq<T>, xs: seq<T>, ys: seq<T>, n: nat)
    requires n <= |xs|
    ensures NewOnes(key, items, xs + ys, n) == NewOnes(key, items, xs, n)
  {
    if n > 0 {
      NewOnesPrefix(key, items, xs, ys, n - 1);
      assert (xs + ys)[..n - 1] == xs[..n - 1];
    }
  }

  lemma HoldsSnoc<T, K>(key: T -> K, a: seq<T>, x: T, k: K)
    ensures Holds(key, a + [x], k) <==> Holds(key, a, k) || key(x) == k
  {
    var b := a + [x];
    forall i | 0 <= i < |a| ensures b[i] == a[i] {
    }
    assert b[|a|] == x;
  }

  lemma {:induction false} HoldsConcat<T, K>(key: T -> K, a: seq<T>, b: seq<T>, k: K)
    ensures Holds(key, a + b, k) <==> Holds(key, a, k) || Holds(key, b, k)
  {
    if b == [] {
      assert a + b == a;
    } else {
      var init, x := b[..|b| - 1], b[|b| - 1];
      HoldsConcat(key, a, init, k);
      HoldsSnoc(key, a + init, x, k);
      HoldsSnoc(key, init, x, k);
      assert a + b == a + init + [x] && b == init + [x];
    }
  }

  /** The new ones, with the items there were, hold every key and no other. */
  lemma {:induction false} KeysKept<T, K>(key: T -> K, items: seq<T>, xs: seq<T>, n: nat, k: K)
    requires n <= |xs|
    ensures Holds(key, items, k) || Holds(key, NewOnes(key, items, xs, n), k)
       <==> Holds(key, items, k) || Holds(key, xs[..n], k)
  {
    if n > 0 {
      var x := xs[n - 1];
      KeysKept(key, items, xs, n - 1, k);
      var before := NewOnes(key, items, xs, n - 1);
      assert before + [] == before;
      HoldsSnoc(key, before, x, k);
      HoldsSnoc(key, xs[..n - 1], x, k);
      assert xs[..n] == xs[..n - 1] + [x];
    }
  }

  /** Appending one by one gives the items there were, then the first occurrence of every new key. */
  lemma {:induction false} AppendAllIsNew<T, K>(key: T -> K, items: seq<T>, xs: seq<T>)
    ensures AppendAll(key, items, xs) == items + NewOnes(key, items, xs, |xs|)
  {
    if xs != [] {
      var n := |xs| - 1;
      var init, x := xs[..n], xs[n];
      AppendAllIsNew(key, items, init);
      assert xs == init + [x];
      NewOnesPrefix(key, items, init, [x], n);
      KeysKept(key, items, init, n, key(x));
      HoldsConcat(key, items, NewOnes(key, items, init, n), key(x));
      assert init[..n] == init;
    } else {
      assert items + [] == items;
    }
  }

  /** Merging one list after another is merging them together. */
  lemma {:induction false} AppendAllConcat<T, K>(key: T -> K, items: seq<T>, xs: seq<T>, ys: seq<T>)
    ensures AppendAll(key, items, xs + ys) == AppendAll(key, AppendAll(key, items, xs), ys)
  {
    if ys == [] {
      assert xs + ys == xs;
    } else {
      var n := |ys| - 1;
      assert (xs + ys)[..|xs + ys| - 1] == xs + ys[..n];
      AppendAllConcat(key, items, xs, ys[..n]);
    }
  }

  /** Elements whose keys are all there add nothing. */
  lemma {:induction false} NothingNew<T, K>(key: T -> K, items: seq<T>, xs: seq<T>)
    requires forall i | 0 <= i < |xs| :: Holds(key, items, key(xs[i]))
    ensures AppendAll(key, items, xs) == items
  {
    if xs != [] {
      NothingNew(key, items, xs[..|xs| - 1]);
    }
  }

  /** The lists merged one after the other. */
  function MergeAll<T, K(==)>(key: T -> K, items: seq<T>, lists: seq<seq<T>>, n: nat): seq<T>
    requires n <= |lists|
  {
    if n == 0 then items else AppendAll(key, MergeAll(key, items, lists, n - 1), lists[n - 1])
  }

  function Flat<T>(lists: seq<seq<T>>, n: nat): seq<T>
    requires n <= |lists|
  {
    if n == 0 then [] else Flat(lists, n - 1) + lists[n - 1]
  }

  /** Any number of merges gives the items there were, then the first occurrence of every new key. */
  lemma {:induction false} MergeAllIsNew<T, K>(key: T -> K, items: seq<T>, lists: seq<seq<T>>, n: nat)
    requires n <= |lists|
    ensures MergeAll(key, items, lists, n) == items + NewOnes(key, items, Flat(lists, n), |Flat(lists, n)|)
  {
    MergeAllFlat(key, items, lists, n);
    AppendAllIsNew(key, items, Flat(lists, n));
  }

  lemma {:induction false} MergeAllFlat<T, K>(key: T -> K, items: seq<T>, lists: seq<seq<T>>, n: nat)
    requires n <= |lists|
    ensures MergeAll(key, items, lists, n) == AppendAll(key, items, Flat(lists, n))
  {
    if n > 0 {
      MergeAllFlat(key, items, lists, n - 1);
      AppendAllConcat(key, items, Flat(lists, n - 1), lists[n - 1]);
    }
  }

  /** What has been merged stays, whatever is merged afterwards. */
  lemma {:induction false} MergedStays<T, K>(key: T -> K, items: seq<T>, lists: seq<seq<T>>, i: nat, n: nat, k: K)
    requires i < n <= |lists| && Holds(key, lists[i], k)
    ensures Holds(key, MergeAll(key, items, lists, n), k)
  {
    var before := MergeAll(key, items, lists, n - 1);
    var xs := lists[n - 1];
    AppendAllIsNew(key, before, xs);
    KeysKept(key, before, xs, |xs|, k);
    HoldsConcat(key, before, NewOnes(key, before, xs, |xs|), k);
    assert xs[..|xs|] == xs;
    if i < n - 1 {
      MergedStays(key, items, lists, i, n - 1, k);
    }
  }

  /** In any sequence of merges, a list whose keys were all merged by an earlier one adds nothing. */
  lemma MergedBefore<T, K>(key: T -> K, items: seq<T>, lists: seq<seq<T>>, i: nat, n: nat)
    requires i < n < |lists| && forall m | 0 <= m < |lists[n]| :: Holds(key, lists[i], key(lists[n][m]))
    ensures MergeAll(key, items, lists, n + 1) == MergeAll(key, items, lists, n)
  {
    forall m | 0 <= m < |lists[n]| ensures Holds(key, MergeAll(key, items, lists, n), key(lists[n][m])) {
      MergedStays(key, items, lists, i, n, key(lists[n][m]));
    }
    NothingNew(key, MergeAll(key, items, lists, n), lists[n]);
  }

  // ---- Items ----

  /** An item of a project; `rest` stands for the fields that do not identify it. */
  datatype Item = Item(target: string, source: string, rest: string)

  function Key(i: Item): (string, string) {
    (Strip(i.target), Strip(i.source))
  }

  /** The three item lists of a project. */
  datatype ProjectItems = ProjectItems(modules: seq<Item>, data: seq<Item>, clean: seq<Item>)

  function Rebased(items: seq<Item>, rebase: Item -> Item): (r: seq<Item>)
    ensures |r| == |items|
  {
    seq(|items|, i requires 0 <= i < |items| => rebase(items[i]))
  }

  /** The items there were, then the new ones among those added, in order. */
  function Merged(items: seq<Item>, added: seq<Item>, rebase: Item -> Item): seq<Item> {
    items + NewOnes(Key, items, Rebased(added, rebase), |added|)
  }

  /** An item is new unless one before it has the same target and the same source, blanks around them aside. */
  lemma NewIff(items: seq<Item>, xs: seq<Item>, i: nat)
    requires i < |xs|
    ensures IsNew(Key, items, xs, i) <==>
      forall y | y in items + xs[..i] ::
        Strip(y.target) != Strip(xs[i].target) || Strip(y.source) != Strip(xs[i].source)
  {
    hide Strip;
    var before := items + xs[..i];
    HoldsConcat(Key, items, xs[..i], Key(xs[i]));
    if y :| y in before && Key(y) == Key(xs[i]) {
      var k :| 0 <= k < |before| && before[k] == y;
      assert Key(before[k]) == Key(xs[i]);
    }
  }

  /** `_append_unique_item` */
  method AppendUniqueItem(items: seq<Item>, x: Item) returns (r: seq<Item>)
    ensures r == Append(Key, items, x)
    ensures r == if exists y | y in items :: Strip(y.target) == Strip(x.target) && Strip(y.source) == Strip(x.source)
      then items else items + [x]
  {
    NewIff(items, [x], 0);
    assert items + [x][..0] == items && !Holds(Key, [x][..0], Key(x));
    hide Key, Strip;
    for i := 0 to |items|
      invariant forall k | 0 <= k < i :: Key(items[k]) != Key(x)
    {
      if Key(items[i]) == Key(x) {
        return items;
      }
    }
    return items + [x];
  }

  /** One turn of `_merge_install_project_items`. */
  method MergeItems(items: seq<Item>, added: seq<Item>, rebase: Item -> Item) returns (r: seq<Item>)
    ensures r == Merged(items, added, rebase)
  {
    hide Key;
    ghost var xs := Rebased(added, rebase);
    r := items;
    for i := 0 to |added|
      invariant r == AppendAll(Key, items, xs[..i])
    {
      assert xs[..i + 1][..i] == xs[..i];
      r := AppendUniqueItem(r, rebase(added[i]));
    }
    assert xs[..|added|] == xs;
    AppendAllIsNew(Key, items, xs);
  }

  // ---- Dependency records ----

  datatype Dependency = Dependency(key: string, kind: string, dir: string, path: string)

  /** One merge of a dependency, for a platform. */
  datatype Call = Call(dep: Dependency, platform: string)

  datatype Record = Record(dep: Dependency, platforms: seq<string>)

  /** Dependencies are the same if key, type and project file are. */
  function Id(d: Dependency): (string, string, string) {
    (d.key, d.kind, d.path)
  }

  function AddPlatform(r: Record, platform: string): Record {
    if platform in r.platforms then r else r.(platforms := r.platforms + [platform])
  }

  /** The first record of a dependency from `k` on. */
  function Locate(records: seq<Record>, id: (string, string, string), k: nat): (r: Option<nat>)
    ensures r.Some? ==> k <= r.value < |records| && Id(records[r.value].dep) == id
    ensures r.None? ==> forall i | k <= i < |records| :: Id(records[i].dep) != id
    decreases |records| - k
  {
    if k >= |records| then None
    else if Id(records[k].dep) == id then Some(k) else Locate(records, id, k + 1)
  }

  /** `_record_publish_dependency` */
  function Note(records: seq<Record>, c: Call): seq<Record> {
    var i := Locate(records, Id(c.dep), 0);
    if i.Some? then records[i.value := AddPlatform(records[i.value], c.platform)]
    else records + [Record(c.dep, [c.platform])]
  }

  function NoteAll(calls: seq<Call>, n: nat): seq<Record>
    requires n <= |calls|
  {
    if n == 0 then [] else Note(NoteAll(calls, n - 1), calls[n - 1])
  }

  ghost predicate Distinct(xs: seq<string>) {
    forall i, k | 0 <= i < k < |xs| :: xs[i] != xs[k]
  }

  /** The same dependency: wherever it was found, under the same key and type in the same project file. */
  ghost predicate Same(d: Dependency, e: Dependency) {
    d.key == e.key && d.kind == e.kind && d.path == e.path
  }

  ghost predicate Called(calls: seq<Call>, n: nat, d: Dependency, platform: string) {
    exists j | 0 <= j < n && j < |calls| :: Same(calls[j].dep, d) && calls[j].platform == platform
  }

  /** One record for each dependency, listing each platform it was merged for, once. */
  ghost predicate Faithful(records: seq<Record>, calls: seq<Call>, n: nat) {
    && (forall i, k | 0 <= i < k < |records| :: !Same(records[i].dep, records[k].dep))
    && (forall i | 0 <= i < |records| :: Distinct(records[i].platforms))
    && (forall i, p | 0 <= i < |records| :: p in records[i].platforms <==> Called(calls, n, records[i].dep, p))
    && (forall j | 0 <= j < n && j < |calls| :: exists i :: 0 <= i < |records| && Same(records[i].dep, calls[j].dep))
  }

  lemma CalledStep(calls: seq<Call>, n: nat, d: Dependency, p: string)
    requires n < |calls|
    ensures Called(calls, n + 1, d, p) <==> Called(calls, n, d, p) || (Same(calls[n].dep, d) && calls[n].platform == p)
  {
  }

  lemma NoteFaithful(records: seq<Record>, now: seq<Record>, calls: seq<Call>, n: nat)
    requires n < |calls| && Faithful(records, calls, n) && now == Note(records, calls[n])
    ensures Faithful(now, calls, n + 1)
  {
    var c := calls[n];
    var at := Locate(records, Id(c.dep), 0);
    forall i, p | 0 <= i < |now| ensures p in now[i].platforms <==> Called(calls, n + 1, now[i].dep, p) {
      CalledStep(calls, n, now[i].dep, p);
    }
    forall j | 0 <= j < n + 1 ensures exists i :: 0 <= i < |now| && Same(now[i].dep, calls[j].dep) {
      if j < n {
        var k :| 0 <= k < |records| && Same(records[k].dep, calls[j].dep);
        assert Same(now[k].dep, calls[j].dep);
      } else {
        assert Same(now[if at.Some? then at.value else |records|].dep, c.dep);
      }
    }
  }

  lemma NothingFaithful(calls: seq<Call>)
    ensures Faithful([], calls, 0)
  {
  }

  /** After any sequence of merges the records say exactly which dependency was merged for which platform. */
  lemma {:induction false} RecordsFaithful(calls: seq<Call>, n: nat, records: seq<Record>)
    requires n <= |calls| && records == NoteAll(calls, n)
    ensures Faithful(records, calls, n)
  {
    if n == 0 {
      NothingFaithful(calls);
    } else {
      RecordsFaithful(calls, n - 1, NoteAll(calls, n - 1));
      NoteFaithful(NoteAll(calls, n - 1), records, calls, n - 1);
    }
  }

  /** Record `i` is that of call `at[i]`, the first for its dependency; records come in the order of those calls. */
  ghost predicate InOrder(records: seq<Record>, calls: seq<Call>, n: nat, at: seq<nat>)
    requires n <= |calls|
  {
    && |at| == |records| && (forall i, k | 0 <= i < k < |at| :: at[i] < at[k])
    && (forall i | 0 <= i < |at| :: at[i] < n && records[i].dep == calls[at[i]].dep)
    && (forall i, j | 0 <= i < |at| && 0 <= j < at[i] :: !Same(calls[j].dep, calls[at[i]].dep))
  }

  /** A dependency is recorded as it was found first, and in the order of first merges. */
  lemma {:induction false} RecordsInOrder(calls: seq<Call>, n: nat) returns (at: seq<nat>)
    requires n <= |calls|
    ensures InOrder(NoteAll(calls, n), calls, n, at)
  {
    hide *;
    if n == 0 {
      at := [];
      NothingInOrder(calls);
    } else {
      at := RecordsInOrder(calls, n - 1);
      var before := NoteAll(calls, n - 1);
      RecordsFaithful(calls, n - 1, before);
      NoteLast(calls, n);
      if Locate(before, Id(calls[n - 1].dep), 0).None? {
        FirstOfItsKind(before, calls, n - 1);
        NextInOrder(before, calls, n - 1, at);
        at := at + [n - 1];
      } else {
        SameOrder(before, calls, n - 1, at);
      }
    }
  }

  lemma NothingInOrder(calls: seq<Call>)
    ensures InOrder(NoteAll(calls, 0), calls, 0, [])
  {
  }

  lemma NoteLast(calls: seq<Call>, n: nat)
    requires 0 < n <= |calls|
    ensures NoteAll(calls, n) == Note(NoteAll(calls, n - 1), calls[n - 1])
  {
  }

  lemma NextInOrder(records: seq<Record>, calls: seq<Call>, n: nat, at: seq<nat>)
    requires n < |calls| && InOrder(records, calls, n, at) && Locate(records, Id(calls[n].dep), 0).None?
    requires forall j | 0 <= j < n :: !Same(calls[j].dep, calls[n].dep)
    ensures InOrder(Note(records, calls[n]), calls, n + 1, at + [n])
  {
    hide Same, Id;
  }

  lemma SameOrder(records: seq<Record>, calls: seq<Call>, n: nat, at: seq<nat>)
    requires n < |calls| && InOrder(records, calls, n, at) && Locate(records, Id(calls[n].dep), 0).Some?
    ensures InOrder(Note(records, calls[n]), calls, n + 1, at)
  {
    hide Same, Id;
  }

  lemma FirstOfItsKind(records: seq<Record>, calls: seq<Call>, n: nat)
    requires n < |calls| && Faithful(records, calls, n) && Locate(records, Id(calls[n].dep), 0).None?
    ensures forall j | 0 <= j < n :: !Same(calls[j].dep, calls[n].dep)
  {
    forall j | 0 <= j < n ensures !Same(calls[j].dep, calls[n].dep) {
      var i :| 0 <= i < |records| && Same(records[i].dep, calls[j].dep);
      assert Id(records[i].dep) != Id(calls[n].dep);
    }
  }

  /** The platforms that a dependency was merged for, in order and with repetitions. */
  ghost function PlatformsOf(calls: seq<Call>, n: nat, d: Dependency): seq<string>
    requires n <= |calls|
  {
    if n == 0 then []
    else PlatformsOf(calls, n - 1, d) + if Same(calls[n - 1].dep, d) then [calls[n - 1].platform] else []
  }

  function Itself(p: string): string { p }

  ghost predicate PlatformsKept(records: seq<Record>, calls: seq<Call>, n: nat)
    requires n <= |calls|
  {
    forall i | 0 <= i < |records| ::
      records[i].platforms == AppendAll(Itself, [], PlatformsOf(calls, n, records[i].dep))
  }

  lemma PlatformAppended(r: Record, p: string, ps: seq<string>)
    requires r.platforms == AppendAll(Itself, [], ps)
    ensures AddPlatform(r, p).platforms == AppendAll(Itself, [], ps + [p])
  {
    assert (ps + [p])[..|ps|] == ps;
    if p in r.platforms {
      var i :| 0 <= i < |r.platforms| && r.platforms[i] == p;
      assert Itself(r.platforms[i]) == Itself(p);
    }
  }

  lemma {:induction false} NoneCalled(calls: seq<Call>, n: nat, d: Dependency)
    requires n <= |calls| && forall j | 0 <= j < n :: !Same(calls[j].dep, d)
    ensures PlatformsOf(calls, n, d) == []
  {
    if n > 0 {
      NoneCalled(calls, n - 1, d);
    }
  }

  lemma NotePlatforms(records: seq<Record>, calls: seq<Call>, n: nat)
    requires n < |calls| && Faithful(records, calls, n) && PlatformsKept(records, calls, n)
    ensures PlatformsKept(Note(records, calls[n]), calls, n + 1)
  {
    var c, now := calls[n], Note(records, calls[n]);
    var at := Locate(records, Id(c.dep), 0);
    hide AppendAll, Called, Distinct, AddPlatform;
    forall i | 0 <= i < |now|
      ensures now[i].platforms == AppendAll(Itself, [], PlatformsOf(calls, n + 1, now[i].dep))
    {
      if i == |records| {
        FirstOfItsKind(records, calls, n);
        NoneCalled(calls, n, c.dep);
        OnePlatform(c.platform);
        assert [] + [c.platform] == [c.platform];
      } else if at == Some(i) {
        PlatformAppended(records[i], c.platform, PlatformsOf(calls, n, records[i].dep));
        AddKeepsDependency(records[i], c.platform);
      } else {
        assert !Same(c.dep, records[i].dep);
        var ps := PlatformsOf(calls, n, records[i].dep);
        assert ps + [] == ps;
      }
    }
  }

  lemma OnePlatform(p: string)
    ensures AppendAll(Itself, [], [p]) == [p]
  {
    assert [p][..0] == [] && [] + [p] == [p];
  }

  lemma AddKeepsDependency(r: Record, p: string)
    ensures AddPlatform(r, p).dep == r.dep
  {
  }

  /** The platforms of a dependency are listed in the order in which it was first merged for each. */
  lemma {:induction false} PlatformsInOrder(calls: seq<Call>, n: nat, i: nat)
    requires n <= |calls| && i < |NoteAll(calls, n)|
    ensures
      var r := NoteAll(calls, n)[i];
      var ps := PlatformsOf(calls, n, r.dep);
      r.platforms == NewOnes(Itself, [], ps, |ps|)
  {
    hide *;
    AllPlatformsKept(calls, n);
    PlatformsAreNew(NoteAll(calls, n), calls, n, i);
  }

  lemma PlatformsAreNew(records: seq<Record>, calls: seq<Call>, n: nat, i: nat)
    requires n <= |calls| && PlatformsKept(records, calls, n) && i < |records|
    ensures
      var ps := PlatformsOf(calls, n, records[i].dep);
      records[i].platforms == NewOnes(Itself, [], ps, |ps|)
  {
    var ps := PlatformsOf(calls, n, records[i].dep);
    AppendAllIsNew(Itself, [], ps);
    assert [] + NewOnes(Itself, [], ps, |ps|) == NewOnes(Itself, [], ps, |ps|);
  }

  lemma {:induction false} AllPlatformsKept(calls: seq<Call>, n: nat)
    requires n <= |calls|
    ensures PlatformsKept(NoteAll(calls, n), calls, n)
  {
    hide *;
    if n == 0 {
      NoPlatforms(calls);
    } else {
      AllPlatformsKept(calls, n - 1);
      RecordsFaithful(calls, n - 1, NoteAll(calls, n - 1));
      NotePlatforms(NoteAll(calls, n - 1), calls, n - 1);
      NoteLast(calls, n);
    }
  }

  lemma NoPlatforms(calls: seq<Call>)
    ensures PlatformsKept(NoteAll(calls, 0), calls, 0)
  {
  }

  lemma {:induction false} NoteAllPrefix(calls: seq<Call>, more: seq<Call>, n: nat)
    requires n <= |calls|
    ensures NoteAll(calls + more, n) == NoteAll(calls, n)
  {
    if n > 0 {
      NoteAllPrefix(calls, more, n - 1);
    }
  }

  // ---- The items of a sequence of merges ----

  /** What a dependency's project file holds under its key, if it can be read and has it. */
  type Load = (string, string) -> Option<ProjectItems>

  /** The items a dependency adds to one of the lists. */
  function Offered(load: Load, rebase: Item -> Item, pick: ProjectItems -> seq<Item>, d: Dependency): seq<Item> {
    var x := load(d.key, d.path);
    if x.None? then [] else Rebased(pick(x.value), rebase)
  }

  function AllOffered(load: Load, rebase: Item -> Item, pick: ProjectItems -> seq<Item>, calls: seq<Call>)
    : (r: seq<seq<Item>>)
    ensures |r| == |calls|
  {
    seq(|calls|, i requires 0 <= i < |calls| => Offered(load, rebase, pick, calls[i].dep))
  }

  /** The list is what it was at first, then the first of every new key that the merges offered. */
  ghost predicate Collected(start: seq<Item>, now: seq<Item>, lists: seq<seq<Item>>) {
    now == start + NewOnes(Key, start, Flat(lists, |lists|), |Flat(lists, |lists|)|)
  }

  lemma {:induction false} MergeAllPrefix<T, K>(
    key: T -> K, items: seq<T>, lists: seq<seq<T>>, more: seq<seq<T>>, n: nat)
    requires n <= |lists|
    ensures MergeAll(key, items, lists + more, n) == MergeAll(key, items, lists, n)
  {
    if n > 0 {
      MergeAllPrefix(key, items, lists, more, n - 1);
    }
  }

  /** One more merge; one that offers what an earlier one did changes nothing. */
  lemma CollectedStep(start: seq<Item>, now: seq<Item>, lists: seq<seq<Item>>, xs: seq<Item>)
    requires Collected(start, now, lists)
    ensures Collected(start, now + NewOnes(Key, now, xs, |xs|), lists + [xs])
    ensures xs in lists ==> now + NewOnes(Key, now, xs, |xs|) == now
  {
    hide Key, NewOnes, Flat;
    var n := |lists|;
    MergeAllIsNew(Key, start, lists, n);
    MergeAllIsNew(Key, start, lists + [xs], n + 1);
    MergeAllPrefix(Key, start, lists, [xs], n);
    AppendAllIsNew(Key, now, xs);
    if xs in lists {
      var i :| 0 <= i < n && lists[i] == xs;
      assert forall m | 0 <= m < |xs| :: Key(xs[m]) == Key(xs[m]);
      MergedBefore(Key, start, lists + [xs], i, n);
    }
  }

  lemma OfferedStep(load: Load, rebase: Item -> Item, pick: ProjectItems -> seq<Item>, calls: seq<Call>, c: Call)
    ensures
      AllOffered(load, rebase, pick, calls + [c]) ==
        AllOffered(load, rebase, pick, calls) + [Offered(load, rebase, pick, c.dep)]
    ensures
      forall k | 0 <= k < |calls| && calls[k].dep.key == c.dep.key && calls[k].dep.path == c.dep.path ::
        Offered(load, rebase, pick, c.dep) == AllOffered(load, rebase, pick, calls)[k]
  {
  }

  ghost predicate SeenBefore(calls: seq<Call>, d: Dependency) {
    exists k | 0 <= k < |calls| :: calls[k].dep.key == d.key && calls[k].dep.path == d.path
  }

  // ---- The project record ----

  class Project {
    var items: ProjectItems
    var records: seq<Record>
    const load: Load
    const rebase: Item -> Item
    ghost const start: ProjectItems
    ghost var calls: seq<Call>

    ghost predicate Recorded()
      reads this
    {
      records == NoteAll(calls, |calls|)
    }

    /** One of the item lists says what all merges so far have come to. */
    ghost predicate ListValid(now: seq<Item>, pick: ProjectItems -> seq<Item>)
      reads this
    {
      Collected(pick(start), now, AllOffered(load, rebase, pick, calls))
    }

    ghost predicate Valid()
      reads this
    {
      && Recorded()
      && ListValid(items.modules, (x: ProjectItems) => x.modules)
      && ListValid(items.data, (x: ProjectItems) => x.data)
      && ListValid(items.clean, (x: ProjectItems) => x.clean)
    }

    constructor (start: ProjectItems, load: Load, rebase: Item -> Item)
      ensures Valid() && items == start && this.start == start && calls == []
      ensures this.load == load && this.rebase == rebase
    {
      items, records, calls := start, [], [];
      this.load, this.rebase, this.start := load, rebase, start;
    }

    /** `_record_publish_dependency` */
    method RecordDependency(c: Call)
      requires Recorded()
      modifies this`records, this`calls
      ensures Recorded() && calls == old(calls) + [c] && Faithful(records, calls, |calls|)
    {
      hide Faithful, AddPlatform, Id;
      RecordsFaithful(calls + [c], |calls| + 1, NoteAll(calls + [c], |calls| + 1));
      NoteAllPrefix(calls, [c], |calls|);
      calls := calls + [c];
      for i := 0 to |records|
        invariant records == old(records) && forall k | 0 <= k < i :: Id(records[k].dep) != Id(c.dep)
        invariant Locate(records, Id(c.dep), 0) == Locate(records, Id(c.dep), i)
      {
        if Id(records[i].dep) == Id(c.dep) {
          records := records[i := AddPlatform(records[i], c.platform)];
          return;
        }
      }
      records := records + [Record(c.dep, [c.platform])];
    }

    /** One more call makes a list longer by what it offers. */
    lemma ListStep(now: seq<Item>, pick: ProjectItems -> seq<Item>, c: Call)
      requires ListValid(now, pick) && load(c.dep.key, c.dep.path).Some?
      ensures
        var next := Merged(now, pick(load(c.dep.key, c.dep.path).value), rebase);
        && Collected(pick(start), next, AllOffered(load, rebase, pick, calls + [c]))
        && (SeenBefore(calls, c.dep) ==> next == now)
    {
      hide Collected, NewOnes, Key, AllOffered;
      OfferedStep(load, rebase, pick, calls, c);
      CollectedStep(pick(start), now, AllOffered(load, rebase, pick, calls), Offered(load, rebase, pick, c.dep));
    }

    /**
     `_merge_publish_dependency`: refused if the dependency is not found; one that was
     merged before, for whatever platform, changes no item.
     */
    method MergeDependency(c: Call) returns (ok: bool)
      requires Valid()
      modifies this
      ensures Valid() && ok == load(c.dep.key, c.dep.path).Some?
      ensures ok ==> calls == old(calls) + [c] && Faithful(records, calls, |calls|)
      ensures !ok ==> calls == old(calls) && items == old(items) && records == old(records)
      ensures SeenBefore(old(calls), c.dep) ==> items == old(items)
    {
      hide Merged, Faithful, Collected, NoteAll;
      var found := load(c.dep.key, c.dep.path);
      if found.None? {
        return false;
      }
      ListStep(items.modules, (x: ProjectItems) => x.modules, c);
      ListStep(items.data, (x: ProjectItems) => x.data, c);
      ListStep(items.clean, (x: ProjectItems) => x.clean, c);
      var modules := MergeItems(items.modules, found.value.modules, rebase);
      var data := MergeItems(items.data, found.value.data, rebase);
      var clean := MergeItems(items.clean, found.value.clean, rebase);
      items := ProjectItems(modules, data, clean);
      RecordDependency(c);
      return true;
    }

    /** The dependencies of a project, for one platform after another, up to the first that is not found. */
    method MergeDependencies(cs: seq<Call>) returns (ok: bool)
      requires Valid()
      modifies this
      ensures Valid() && (ok <==> forall i | 0 <= i < |cs| :: load(cs[i].dep.key, cs[i].dep.path).Some?)
      ensures exists n | 0 <= n <= |cs| ::
        && calls == old(calls) + cs[..n] && (ok <==> n == |cs|)
        && (forall i | 0 <= i < n :: load(cs[i].dep.key, cs[i].dep.path).Some?)
        && (n < |cs| ==> load(cs[n].dep.key, cs[n].dep.path).None?)
      ensures (forall i | 0 <= i < |cs| :: SeenBefore(old(calls), cs[i].dep)) ==> items == old(items)
    {
      hide Recorded, ListValid, Faithful;
      for n := 0 to |cs|
        invariant Valid() && calls == old(calls) + cs[..n]
        invariant forall i | 0 <= i < n :: load(cs[i].dep.key, cs[i].dep.path).Some?
        invariant (forall i | 0 <= i < |cs| :: SeenBefore(old(calls), cs[i].dep)) ==> items == old(items)
      {
        if SeenBefore(old(calls), cs[n].dep) {
          SeenLater(old(calls), cs[..n], cs[n].dep);
        }
        assert cs[..n + 1] == cs[..n] + [cs[n]];
        var found := MergeDependency(cs[n]);
        if !found {
          return false;
        }
      }
      assert cs[..|cs|] == cs;
      return true;
    }
  }

  lemma SeenLater(calls: seq<Call>, more: seq<Call>, d: Dependency)
    requires SeenBefore(calls, d)
    ensures SeenBefore(calls + more, d)
  {
    var k :| 0 <= k < |calls| && calls[k].dep.key == d.key && calls[k].dep.path == d.path;
    assert (calls + more)[k] == calls[k];
  }
}
