/**
 Correlation of AI gateway log lines (read_aicc_log.py): provider starts, LLM
 inputs and LLM outputs are matched through two dictionaries of queues.
 Recognising a line is left to the line type; the rest is `parse_entries`.
 */
module LogEntries {
  import opened Text
  import opened Pairing

  type Meta = map<string, string>

  datatype Kind = Routing | LlmInput | ProviderStart

  datatype Line =
    | Context(kind: Kind, meta: Meta)
    | Llm(timestamp: string, input: bool, meta: Meta, payload: string)
    | Failure(timestamp: string, detail: string)
    | Noise

  datatype Entry =
    | LlmEntry(timestamp: string, input: bool, meta: Meta, payload: string)
    | ErrorEntry(timestamp: string, detail: string)

  datatype CorrelationKey = CorrelationKey(instance: string, model: string, trace: string)

  function Get(m: Meta, name: string): string {
    if name in m then m[name] else ""
  }

  /** Python's `a or b` on strings. */
  function Or(a: string, b: string): string {
    if a != "" then a else b
  }

  /** `provider_key` */
  function ProviderKey(m: Meta): CorrelationKey {
    CorrelationKey(
      Or(Get(m, "instance_id"), Get(m, "primary_instance")),
      Or(Get(m, "model"), Get(m, "provider_model")),
      Get(m, "trace_id"))
  }

  function Default(m: Meta, name: string, other: string): Meta {
    if name !in m && other in m then m[name := m[other]] else m
  }

  /** `merge_meta` */
  function MergeMeta(base: Meta, overlay: Meta): Meta {
    Default(Default(base + overlay, "model", "provider_model"), "instance_id", "primary_instance")
  }

  lemma DefaultKeepsKey(m: Meta)
    ensures ProviderKey(Default(m, "model", "provider_model")) == ProviderKey(m)
    ensures ProviderKey(Default(m, "instance_id", "primary_instance")) == ProviderKey(m)
  {
    assert "model" != "provider_model" && "model" != "trace_id";
    assert "model" != "instance_id" && "model" != "primary_instance";
    assert "instance_id" != "primary_instance" && "instance_id" != "trace_id" && "instance_id" != "provider_model";
  }

  /** Merging two records with the same correlation key, or none at all, leaves the key alone. */
  lemma MergeKeepsKey(base: Meta, overlay: Meta)
    requires base == map[] || ProviderKey(base) == ProviderKey(overlay)
    ensures ProviderKey(MergeMeta(base, overlay)) == ProviderKey(overlay)
  {
    var m := base + overlay;
    DefaultKeepsKey(m);
    DefaultKeepsKey(Default(m, "model", "provider_model"));
  }

  /** A record whose key differs from the overlay's can change it: the guard above is needed. */
  lemma MergeCanChangeKey()
    ensures
      var base := map["instance_id" := "a"];
      var overlay := map["primary_instance" := "b"];
      ProviderKey(MergeMeta(base, overlay)) != ProviderKey(overlay)
  {
    var base: Meta := map["instance_id" := "a"];
    var overlay: Meta := map["primary_instance" := "b"];
    var m := base + overlay;
    assert "instance_id" != "primary_instance";
    DefaultKeepsKey(m);
    DefaultKeepsKey(Default(m, "model", "provider_model"));
    assert Get(m, "instance_id") == "a" && Get(overlay, "instance_id") == "" && Get(overlay, "primary_instance") == "b";
  }

  // ---- The reference ----

  function WithContext(contexts: map<string, Meta>, meta: Meta): map<string, Meta> {
    var task := Get(meta, "task_id");
    if task == "" then contexts
    else contexts[task := MergeMeta(if task in contexts then contexts[task] else map[], meta)]
  }

  /** What is known about each task after the first `n` lines. */
  function Contexts(lines: seq<Line>, n: nat): map<string, Meta>
    requires n <= |lines|
  {
    if n == 0 then map[]
    else if lines[n - 1].Context? then WithContext(Contexts(lines, n - 1), lines[n - 1].meta)
    else Contexts(lines, n - 1)
  }

  function StartRecord(contexts: map<string, Meta>, meta: Meta): Meta {
    var task := Get(meta, "task_id");
    MergeMeta(if task != "" && task in contexts then contexts[task] else map[], meta)
  }

  predicate IsStart(line: Line) { line.Context? && line.kind.ProviderStart? }

  /** The record a provider start at line `i` leaves behind. */
  function StartMeta(lines: seq<Line>, i: nat): Meta
    requires i < |lines| && IsStart(lines[i])
  {
    StartRecord(Contexts(lines, i + 1), lines[i].meta)
  }

  function StartEvent(lines: seq<Line>, i: nat): Event<CorrelationKey>
    requires i < |lines|
  {
    if IsStart(lines[i]) then Put(ProviderKey(StartMeta(lines, i)))
    else if lines[i].Llm? && lines[i].input then Take(ProviderKey(lines[i].meta))
    else Skip
  }

  function CallEvent(line: Line): Event<CorrelationKey> {
    if !line.Llm? then Skip
    else if line.input then Put(ProviderKey(line.meta))
    else Take(ProviderKey(line.meta))
  }

  /** Provider starts are taken by inputs. */
  function StartEvents(lines: seq<Line>): (es: seq<Event<CorrelationKey>>)
    ensures |es| == |lines| && forall i | 0 <= i < |es| :: es[i] == StartEvent(lines, i)
  {
    seq(|lines|, i requires 0 <= i < |lines| => StartEvent(lines, i))
  }

  /** Inputs are taken by outputs. */
  function CallEvents(lines: seq<Line>): (es: seq<Event<CorrelationKey>>)
    ensures |es| == |lines| && forall i | 0 <= i < |es| :: es[i] == CallEvent(lines[i])
  {
    seq(|lines|, i requires 0 <= i < |lines| => CallEvent(lines[i]))
  }

  function PartnerMeta(metas: seq<Meta>, partner: Option<nat>): Meta {
    if partner.Some? && partner.value < |metas| then metas[partner.value] else map[]
  }

  /** The record of line `i`, given the records of earlier lines and the two pairings. */
  ghost predicate RecordOk(lines: seq<Line>, starts: Partners, calls: Partners, metas: seq<Meta>, i: nat)
    requires i < |lines| && i < |starts| && i < |calls| && i < |metas|
  {
    metas[i] ==
      if IsStart(lines[i]) then StartMeta(lines, i)
      else if lines[i].Llm? then
        MergeMeta(PartnerMeta(metas[..i], if lines[i].input then starts[i] else calls[i]), lines[i].meta)
      else map[]
  }

  ghost predicate RecordsOk(lines: seq<Line>, starts: Partners, calls: Partners, metas: seq<Meta>) {
    && |starts| == |calls| == |metas| <= |lines|
    && forall i | 0 <= i < |metas| :: RecordOk(lines, starts, calls, metas, i)
  }

  /** The entries reported for the first `n` lines. */
  function Listing(lines: seq<Line>, metas: seq<Meta>, showErrors: bool, n: nat): seq<Entry>
    requires n <= |lines| && n <= |metas|
  {
    if n == 0 then []
    else
      Listing(lines, metas, showErrors, n - 1) +
      match lines[n - 1]
      case Llm(timestamp, input, _, payload) => [LlmEntry(timestamp, input, metas[n - 1], payload)]
      case Failure(timestamp, detail) => if showErrors then [ErrorEntry(timestamp, detail)] else []
      case _ => []
  }

  /**
   The report the reference asks for: each input is merged with the earliest unused
   provider start of its key, each output with the earliest unused input of its key.
   */
  ghost predicate Report(lines: seq<Line>, showErrors: bool, starts: Partners, calls: Partners,
                         metas: seq<Meta>, entries: seq<Entry>)
  {
    && |metas| == |lines|
    && IsPairing(StartEvents(lines), starts)
    && IsPairing(CallEvents(lines), calls)
    && RecordsOk(lines, starts, calls, metas)
    && entries == Listing(lines, metas, showErrors, |lines|)
  }

  lemma {:induction false} RecordsUnique(lines: seq<Line>, starts: Partners, calls: Partners,
                                         a: seq<Meta>, b: seq<Meta>, n: nat)
    requires RecordsOk(lines, starts, calls, a) && RecordsOk(lines, starts, calls, b) && n <= |a|
    ensures a[..n] == b[..n]
  {
    if n > 0 {
      RecordsUnique(lines, starts, calls, a, b, n - 1);
      assert RecordOk(lines, starts, calls, a, n - 1) && RecordOk(lines, starts, calls, b, n - 1);
      assert a[..n] == a[..n - 1] + [a[n - 1]];
      assert b[..n] == b[..n - 1] + [b[n - 1]];
    }
  }

  /** The reference determines the report: there is one for every log. */
  lemma ReportUnique(lines: seq<Line>, showErrors: bool, s1: Partners, c1: Partners, m1: seq<Meta>, e1: seq<Entry>,
                     s2: Partners, c2: Partners, m2: seq<Meta>, e2: seq<Entry>)
    requires Report(lines, showErrors, s1, c1, m1, e1) && Report(lines, showErrors, s2, c2, m2, e2)
    ensures e1 == e2
  {
    PairingUnique(StartEvents(lines), s1, s2, |lines|);
    PairingUnique(CallEvents(lines), c1, c2, |lines|);
    assert s1 == s1[..|lines|] == s2[..|lines|] == s2;
    assert c1 == c1[..|lines|] == c2[..|lines|] == c2;
    RecordsUnique(lines, s1, c1, m1, m2, |lines|);
    assert m1 == m1[..|lines|] == m2[..|lines|] == m2;
  }

  // ---- The program ----

  lemma {:induction false} ListingPrefix(lines: seq<Line>, metas: seq<Meta>, m: Meta, showErrors: bool, n: nat)
    requires n <= |lines| && n <= |metas|
    ensures Listing(lines, metas + [m], showErrors, n) == Listing(lines, metas, showErrors, n)
  {
    if n > 0 {
      ListingPrefix(lines, metas, m, showErrors, n - 1);
    }
  }

  lemma RecordsExtend(lines: seq<Line>, starts: Partners, calls: Partners, metas: seq<Meta>,
                      x: Option<nat>, y: Option<nat>, m: Meta)
    requires RecordsOk(lines, starts, calls, metas) && |metas| < |lines|
    requires RecordOk(lines, starts + [x], calls + [y], metas + [m], |metas|)
    ensures RecordsOk(lines, starts + [x], calls + [y], metas + [m])
  {
    forall i | 0 <= i < |metas| ensures RecordOk(lines, starts + [x], calls + [y], metas + [m], i) {
      assert RecordOk(lines, starts, calls, metas, i);
      assert (metas + [m])[..i] == metas[..i];
    }
  }

  /** A record waiting in a queue has the key it waits under. */
  lemma RecordKey(lines: seq<Line>, starts: Partners, calls: Partners, metas: seq<Meta>, j: nat, k: CorrelationKey)
    requires RecordsOk(lines, starts, calls, metas) && j < |metas| && StartEvents(lines)[j] == Put(k)
    ensures ProviderKey(metas[j]) == k
  {
    assert RecordOk(lines, starts, calls, metas, j);
  }

  /** What the program holds between two lines. */
  datatype Scan = Scan(
    entries: seq<Entry>, contexts: map<string, Meta>,
    pending: map<CorrelationKey, seq<Meta>>, active: map<CorrelationKey, seq<Meta>>)

  /** What the proof knows beside it: the pairings, every line's record, and the queues as line numbers. */
  datatype Trail = Trail(
    starts: Partners, calls: Partners, metas: seq<Meta>,
    pendingAt: map<CorrelationKey, seq<nat>>, activeAt: map<CorrelationKey, seq<nat>>)

  ghost predicate Follows(lines: seq<Line>, showErrors: bool, n: nat, s: Scan, t: Trail) {
    && n <= |lines| && |t.starts| == |t.calls| == |t.metas| == n
    && s.contexts == Contexts(lines, n)
    && Tracks(StartEvents(lines), t.starts, t.pendingAt, s.pending, t.metas)
    && Tracks(CallEvents(lines), t.calls, t.activeAt, s.active, t.metas)
    && RecordsOk(lines, t.starts, t.calls, t.metas)
    && s.entries == Listing(lines, t.metas, showErrors, n)
  }

  /** The records and the listing grow by one line. */
  lemma GrowRecords(lines: seq<Line>, showErrors: bool, n: nat, t: Trail, x: Option<nat>, y: Option<nat>, m: Meta)
    requires |t.starts| == |t.calls| == |t.metas| == n < |lines| && RecordsOk(lines, t.starts, t.calls, t.metas)
    requires m ==
      if IsStart(lines[n]) then StartMeta(lines, n)
      else if lines[n].Llm? then MergeMeta(PartnerMeta(t.metas, if lines[n].input then x else y), lines[n].meta)
      else map[]
    ensures RecordsOk(lines, t.starts + [x], t.calls + [y], t.metas + [m])
    ensures Listing(lines, t.metas + [m], showErrors, n) == Listing(lines, t.metas, showErrors, n)
  {
    assert (t.metas + [m])[..n] == t.metas;
    RecordsExtend(lines, t.starts, t.calls, t.metas, x, y, m);
    ListingPrefix(lines, t.metas, m, showErrors, n);
  }

  /** A provider start is put in the one queue, and moves the other not. */
  lemma StartTracks(lines: seq<Line>, n: nat, s: Scan, t: Trail, record: Meta)
    requires |t.metas| == |t.starts| == |t.calls| == n < |lines| && IsStart(lines[n]) && record == StartMeta(lines, n)
    requires Tracks(StartEvents(lines), t.starts, t.pendingAt, s.pending, t.metas)
    requires Tracks(CallEvents(lines), t.calls, t.activeAt, s.active, t.metas)
    ensures Tracks(StartEvents(lines), t.starts + [None], Push(t.pendingAt, ProviderKey(record), n),
                   Push(s.pending, ProviderKey(record), record), t.metas + [record])
    ensures Tracks(CallEvents(lines), t.calls + [None], t.activeAt, s.active, t.metas + [record])
  {
    hide Tracks, ProviderKey;
    assert StartEvents(lines)[n] == Put(ProviderKey(record)) && CallEvents(lines)[n] == Skip;
    TrackPut(StartEvents(lines), t.starts, t.pendingAt, s.pending, t.metas, record);
    TrackSkip(CallEvents(lines), t.calls, t.activeAt, s.active, t.metas, record);
  }

  lemma StartLine(lines: seq<Line>, showErrors: bool, n: nat, s: Scan, t: Trail) returns (u: Trail)
    requires Follows(lines, showErrors, n, s, t) && n < |lines| && IsStart(lines[n])
    ensures
      var contexts := WithContext(s.contexts, lines[n].meta);
      var record := StartRecord(contexts, lines[n].meta);
      Follows(lines, showErrors, n + 1,
              s.(contexts := contexts, pending := Push(s.pending, ProviderKey(record), record)), u)
  {
    hide Tracks, RecordsOk, ProviderKey, Push;
    var record := StartRecord(WithContext(s.contexts, lines[n].meta), lines[n].meta);
    assert record == StartMeta(lines, n);
    StartTracks(lines, n, s, t, record);
    GrowRecords(lines, showErrors, n, t, None, None, record);
    u := Trail(t.starts + [None], t.calls + [None], t.metas + [record],
               Push(t.pendingAt, ProviderKey(record), n), t.activeAt);
  }

  /** A line that is neither a provider start nor an LLM call moves no queue. */
  lemma OtherTracks(lines: seq<Line>, n: nat, s: Scan, t: Trail)
    requires |t.metas| == n < |lines| && !IsStart(lines[n]) && !lines[n].Llm?
    requires Tracks(StartEvents(lines), t.starts, t.pendingAt, s.pending, t.metas)
    requires Tracks(CallEvents(lines), t.calls, t.activeAt, s.active, t.metas)
    ensures Tracks(StartEvents(lines), t.starts + [None], t.pendingAt, s.pending, t.metas + [map[]])
    ensures Tracks(CallEvents(lines), t.calls + [None], t.activeAt, s.active, t.metas + [map[]])
  {
    TrackSkip(StartEvents(lines), t.starts, t.pendingAt, s.pending, t.metas, map[]);
    TrackSkip(CallEvents(lines), t.calls, t.activeAt, s.active, t.metas, map[]);
  }

  lemma OtherLine(lines: seq<Line>, showErrors: bool, n: nat, s: Scan, t: Trail) returns (u: Trail)
    requires Follows(lines, showErrors, n, s, t) && n < |lines| && !IsStart(lines[n]) && !lines[n].Llm?
    ensures
      var contexts := if lines[n].Context? then WithContext(s.contexts, lines[n].meta) else s.contexts;
      var more := if lines[n].Failure? && showErrors then [ErrorEntry(lines[n].timestamp, lines[n].detail)] else [];
      Follows(lines, showErrors, n + 1, s.(contexts := contexts, entries := s.entries + more), u)
  {
    u := Trail(t.starts + [None], t.calls + [None], t.metas + [map[]], t.pendingAt, t.activeAt);
    OtherTracks(lines, n, s, t);
    GrowRecords(lines, showErrors, n, t, None, None, map[]);
  }

  function Found(found: Option<Meta>): Meta {
    if found.Some? then found.value else map[]
  }

  /** An input takes a provider start and is put in line for an output, under its own key. */
  lemma InputTracks(lines: seq<Line>, n: nat, s: Scan, t: Trail, record: Meta)
    requires |t.metas| == n < |lines| && lines[n].Llm? && lines[n].input
    requires RecordsOk(lines, t.starts, t.calls, t.metas)
    requires Tracks(StartEvents(lines), t.starts, t.pendingAt, s.pending, t.metas)
    requires Tracks(CallEvents(lines), t.calls, t.activeAt, s.active, t.metas)
    requires record == MergeMeta(Found(PopFirst(s.pending, ProviderKey(lines[n].meta)).1), lines[n].meta)
    ensures
      var key := ProviderKey(lines[n].meta);
      var x := PopFirst(t.pendingAt, key).1;
      && record == MergeMeta(PartnerMeta(t.metas, x), lines[n].meta) && ProviderKey(record) == key
      && Tracks(StartEvents(lines), t.starts + [x], PopFirst(t.pendingAt, key).0, PopFirst(s.pending, key).0,
                t.metas + [record])
      && Tracks(CallEvents(lines), t.calls + [None], Push(t.activeAt, key, n), Push(s.active, key, record),
                t.metas + [record])
  {
    var key := ProviderKey(lines[n].meta);
    TrackTake(StartEvents(lines), t.starts, t.pendingAt, s.pending, t.metas, record);
    var x := PopFirst(t.pendingAt, key).1;
    if x.Some? {
      RecordKey(lines, t.starts, t.calls, t.metas, x.value, key);
    }
    MergeKeepsKey(Found(PopFirst(s.pending, key).1), lines[n].meta);
    TrackPut(CallEvents(lines), t.calls, t.activeAt, s.active, t.metas, record);
  }

  lemma InputLine(lines: seq<Line>, showErrors: bool, n: nat, s: Scan, t: Trail) returns (u: Trail)
    requires Follows(lines, showErrors, n, s, t) && n < |lines| && lines[n].Llm? && lines[n].input
    ensures
      var (rest, found) := PopFirst(s.pending, ProviderKey(lines[n].meta));
      var record := MergeMeta(Found(found), lines[n].meta);
      var entry := LlmEntry(lines[n].timestamp, true, record, lines[n].payload);
      Follows(lines, showErrors, n + 1,
        s.(pending := rest, active := Push(s.active, ProviderKey(record), record), entries := s.entries + [entry]), u)
  {
    var key := ProviderKey(lines[n].meta);
    var record := MergeMeta(Found(PopFirst(s.pending, key).1), lines[n].meta);
    var x := PopFirst(t.pendingAt, key).1;
    u := Trail(t.starts + [x], t.calls + [None], t.metas + [record],
               PopFirst(t.pendingAt, key).0, Push(t.activeAt, key, n));
    InputTracks(lines, n, s, t, record);
    GrowRecords(lines, showErrors, n, t, x, None, record);
  }

  /** An output takes an input. */
  lemma OutputTracks(lines: seq<Line>, n: nat, s: Scan, t: Trail, record: Meta)
    requires |t.metas| == n < |lines| && lines[n].Llm? && !lines[n].input
    requires Tracks(StartEvents(lines), t.starts, t.pendingAt, s.pending, t.metas)
    requires Tracks(CallEvents(lines), t.calls, t.activeAt, s.active, t.metas)
    requires record == MergeMeta(Found(PopFirst(s.active, ProviderKey(lines[n].meta)).1), lines[n].meta)
    ensures
      var key := ProviderKey(lines[n].meta);
      var y := PopFirst(t.activeAt, key).1;
      && record == MergeMeta(PartnerMeta(t.metas, y), lines[n].meta)
      && Tracks(StartEvents(lines), t.starts + [None], t.pendingAt, s.pending, t.metas + [record])
      && Tracks(CallEvents(lines), t.calls + [y], PopFirst(t.activeAt, key).0, PopFirst(s.active, key).0,
                t.metas + [record])
  {
    TrackTake(CallEvents(lines), t.calls, t.activeAt, s.active, t.metas, record);
    TrackSkip(StartEvents(lines), t.starts, t.pendingAt, s.pending, t.metas, record);
  }

  lemma OutputLine(lines: seq<Line>, showErrors: bool, n: nat, s: Scan, t: Trail) returns (u: Trail)
    requires Follows(lines, showErrors, n, s, t) && n < |lines| && lines[n].Llm? && !lines[n].input
    ensures
      var (rest, found) := PopFirst(s.active, ProviderKey(lines[n].meta));
      var record := MergeMeta(Found(found), lines[n].meta);
      var entry := LlmEntry(lines[n].timestamp, false, record, lines[n].payload);
      Follows(lines, showErrors, n + 1, s.(active := rest, entries := s.entries + [entry]), u)
  {
    var key := ProviderKey(lines[n].meta);
    var record := MergeMeta(Found(PopFirst(s.active, key).1), lines[n].meta);
    var y := PopFirst(t.activeAt, key).1;
    u := Trail(t.starts + [None], t.calls + [y], t.metas + [record],
               t.pendingAt, PopFirst(t.activeAt, key).0);
    OutputTracks(lines, n, s, t, record);
    GrowRecords(lines, showErrors, n, t, None, y, record);
  }

  /** `parse_entries`: the report of every log is the reference's. */
  method ParseEntries(lines: seq<Line>, showErrors: bool) returns (entries: seq<Entry>)
    ensures exists starts, calls, metas :: Report(lines, showErrors, starts, calls, metas, entries)
  {
    hide ProviderKey, MergeMeta;
    entries := [];
    var contexts: map<string, Meta> := map[];
    var pending: map<CorrelationKey, seq<Meta>> := map[];
    var active: map<CorrelationKey, seq<Meta>> := map[];
    ghost var t := Trail([], [], [], map[], map[]);
    for n := 0 to |lines|
      invariant Follows(lines, showErrors, n, Scan(entries, contexts, pending, active), t)
    {
      ghost var s := Scan(entries, contexts, pending, active);
      var line := lines[n];
      match line {
        case Context(kind, meta) =>
          contexts := WithContext(contexts, meta);
          if kind.ProviderStart? {
            t := StartLine(lines, showErrors, n, s, t);
            var record := StartRecord(contexts, meta);
            pending := Push(pending, ProviderKey(record), record);
          } else {
            t := OtherLine(lines, showErrors, n, s, t);
          }
        case Llm(timestamp, input, meta, payload) =>
          var key := ProviderKey(meta);
          var record: Meta;
          if input {
            t := InputLine(lines, showErrors, n, s, t);
            var (rest, found) := PopFirst(pending, key);
            pending := rest;
            record := MergeMeta(Found(found), meta);
            active := Push(active, ProviderKey(record), record);
          } else {
            t := OutputLine(lines, showErrors, n, s, t);
            var (rest, found) := PopFirst(active, key);
            active := rest;
            record := MergeMeta(Found(found), meta);
          }
          entries := entries + [LlmEntry(timestamp, input, record, payload)];
        case Failure(timestamp, detail) =>
          t := OtherLine(lines, showErrors, n, s, t);
          if showErrors {
            entries := entries + [ErrorEntry(timestamp, detail)];
          }
        case Noise =>
          t := OtherLine(lines, showErrors, n, s, t);
      }
    }
    assert Report(lines, showErrors, t.starts, t.calls, t.metas, entries);
  }
}
