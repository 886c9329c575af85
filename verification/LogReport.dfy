/**
 What the report on a log holds, read off the names on its lines: which lines are
 partners, what every record says, and which entries are listed.
 */
module LogReport {
  import opened Text
  import opened Pairing
  import opened LogEntries

  // ---- Which lines are partners ----

  ghost function Said(m: Meta, name: string): string {
    if name in m then m[name] else ""
  }

  ghost function InstanceOf(m: Meta): string {
    if Said(m, "instance_id") != "" then Said(m, "instance_id") else Said(m, "primary_instance")
  }

  ghost function ModelOf(m: Meta): string {
    if Said(m, "model") != "" then Said(m, "model") else Said(m, "provider_model")
  }

  /** The two lines speak of the same instance, model and trace. */
  ghost predicate Agree(a: Meta, b: Meta) {
    InstanceOf(a) == InstanceOf(b) && ModelOf(a) == ModelOf(b) && Said(a, "trace_id") == Said(b, "trace_id")
  }

  lemma KeysAgree(a: Meta, b: Meta)
    ensures ProviderKey(a) == ProviderKey(b) <==> Agree(a, b)
  {
  }

  predicate IsInput(line: Line) { line.Llm? && line.input }

  predicate IsOutput(line: Line) { line.Llm? && !line.input }

  ghost predicate Unused(p: Partners, i: nat, j: nat) {
    i <= |p| && forall m | 0 <= m < i :: p[m] != Some(j)
  }

  /** Before line `i`, input `j` agrees with it and no output has taken it. */
  ghost predicate InputWaits(lines: seq<Line>, calls: Partners, i: nat, j: nat)
    requires i < |lines| && lines[i].Llm?
  {
    j < i && IsInput(lines[j]) && Agree(lines[j].meta, lines[i].meta) && Unused(calls, i, j)
  }

  /** Before line `i`, the record of provider start `j` agrees with it and no input has taken it. */
  ghost predicate StartWaits(lines: seq<Line>, starts: Partners, metas: seq<Meta>, i: nat, j: nat)
    requires i < |lines| && lines[i].Llm? && |metas| == |lines|
  {
    && j < i && lines[j].Context? && lines[j].kind.ProviderStart?
    && Agree(metas[j], lines[i].meta) && Unused(starts, i, j)
  }

  lemma FreeInput(lines: seq<Line>, calls: Partners, i: nat, j: nat)
    requires i < |lines| == |calls| && lines[i].Llm?
    ensures Free(CallEvents(lines), calls, i, ProviderKey(lines[i].meta), j) <==> InputWaits(lines, calls, i, j)
  {
    if j < i && lines[j].Llm? {
      KeysAgree(lines[j].meta, lines[i].meta);
    }
  }

  lemma FreeStart(lines: seq<Line>, starts: Partners, calls: Partners, metas: seq<Meta>, i: nat, j: nat)
    requires i < |lines| == |starts| == |metas| && lines[i].Llm? && RecordsOk(lines, starts, calls, metas)
    ensures Free(StartEvents(lines), starts, i, ProviderKey(lines[i].meta), j) <==>
      StartWaits(lines, starts, metas, i, j)
  {
    hide ProviderKey;
    if j < i && IsStart(lines[j]) {
      assert RecordOk(lines, starts, calls, metas, j);
      KeysAgree(metas[j], lines[i].meta);
    }
  }

  /** An output is paired with the earliest input that waits and agrees with it; without a partner there is none. */
  lemma OutputPartner(lines: seq<Line>, showErrors: bool, starts: Partners, calls: Partners,
                      metas: seq<Meta>, entries: seq<Entry>, i: nat)
    requires Report(lines, showErrors, starts, calls, metas, entries) && i < |lines|
    ensures calls[i].Some? ==>
      && IsOutput(lines[i]) && InputWaits(lines, calls, i, calls[i].value)
      && forall j: nat | j < calls[i].value :: !InputWaits(lines, calls, i, j)
    ensures IsOutput(lines[i]) && calls[i].None? ==> forall j: nat :: !InputWaits(lines, calls, i, j)
  {
    assert PairedAt(CallEvents(lines), calls, i);
    if IsOutput(lines[i]) {
      forall j: nat
        ensures Free(CallEvents(lines), calls, i, ProviderKey(lines[i].meta), j) <==> InputWaits(lines, calls, i, j)
      {
        FreeInput(lines, calls, i, j);
      }
    }
  }

  /** An input is paired with the earliest provider start that waits and agrees; without a partner there is none. */
  lemma InputPartner(lines: seq<Line>, showErrors: bool, starts: Partners, calls: Partners,
                     metas: seq<Meta>, entries: seq<Entry>, i: nat)
    requires Report(lines, showErrors, starts, calls, metas, entries) && i < |lines|
    ensures starts[i].Some? ==>
      && IsInput(lines[i]) && StartWaits(lines, starts, metas, i, starts[i].value)
      && forall j: nat | j < starts[i].value :: !StartWaits(lines, starts, metas, i, j)
    ensures IsInput(lines[i]) && starts[i].None? ==> forall j: nat :: !StartWaits(lines, starts, metas, i, j)
  {
    assert PairedAt(StartEvents(lines), starts, i);
    if IsInput(lines[i]) {
      forall j: nat
        ensures Free(StartEvents(lines), starts, i, ProviderKey(lines[i].meta), j) <==>
          StartWaits(lines, starts, metas, i, j)
      {
        FreeStart(lines, starts, calls, metas, i, j);
      }
    }
  }

  // ---- What a record says ----

  ghost function Value(m: Meta, name: string): Option<string> {
    if name in m then Some(m[name]) else None
  }

  /** The name whose value stands in for a missing one. */
  ghost function StandIn(name: string): Option<string> {
    if name == "model" then Some("provider_model")
    else if name == "instance_id" then Some("primary_instance")
    else None
  }

  /** The overlay's value, else the base's, else that of the stand-in, again the overlay's first. */
  ghost function Merged(base: Meta, overlay: Meta, name: string): Option<string> {
    if name in overlay then Some(overlay[name])
    else if name in base then Some(base[name])
    else if StandIn(name).None? then None
    else if StandIn(name).value in overlay then Some(overlay[StandIn(name).value])
    else Value(base, StandIn(name).value)
  }

  lemma MergeAt(base: Meta, overlay: Meta, name: string)
    ensures Value(MergeMeta(base, overlay), name) == Merged(base, overlay, name)
  {
    assert "model" != "provider_model" && "model" != "instance_id" && "model" != "primary_instance";
    assert "instance_id" != "primary_instance" && "instance_id" != "provider_model";
  }

  /** Line `k` says something about the task. */
  predicate About(line: Line, task: string) {
    line.Context? && "task_id" in line.meta && line.meta["task_id"] == task && task != ""
  }

  /** What the last of the first `n` lines about the task that has the name says. */
  ghost function LastSaid(lines: seq<Line>, n: nat, task: string, name: string): Option<string>
    requires n <= |lines|
  {
    if n == 0 then None
    else if About(lines[n - 1], task) && name in lines[n - 1].meta then Some(lines[n - 1].meta[name])
    else LastSaid(lines, n - 1, task, name)
  }

  ghost function FirstSaid(lines: seq<Line>, n: nat, task: string, name: string): Option<string>
    requires n <= |lines|
  {
    if n == 0 then None
    else if FirstSaid(lines, n - 1, task, name).Some? then FirstSaid(lines, n - 1, task, name)
    else if About(lines[n - 1], task) then Value(lines[n - 1].meta, name)
    else None
  }

  /** What was last said under the name, else what was first said under its stand-in. */
  ghost function Known(lines: seq<Line>, n: nat, task: string, name: string): Option<string>
    requires n <= |lines|
  {
    if LastSaid(lines, n, task, name).Some? || StandIn(name).None? then LastSaid(lines, n, task, name)
    else FirstSaid(lines, n, task, StandIn(name).value)
  }

  ghost function Context(contexts: map<string, Meta>, task: string): Meta {
    if task in contexts then contexts[task] else map[]
  }

  lemma {:induction false} FirstThenLast(lines: seq<Line>, n: nat, task: string, name: string)
    requires n <= |lines|
    ensures FirstSaid(lines, n, task, name).Some? <==> LastSaid(lines, n, task, name).Some?
  {
    if n > 0 {
      FirstThenLast(lines, n - 1, task, name);
    }
  }

  /** What the program knows about a task is what its lines have said so far. */
  lemma {:induction false} ContextIs(lines: seq<Line>, n: nat, task: string, name: string)
    requires n <= |lines|
    ensures Value(Context(Contexts(lines, n), task), name) == Known(lines, n, task, name)
  {
    hide MergeMeta;
    if n > 0 {
      ContextIs(lines, n - 1, task, name);
      if About(lines[n - 1], task) {
        MergeAt(Context(Contexts(lines, n - 1), task), lines[n - 1].meta, name);
        if StandIn(name).Some? {
          ContextIs(lines, n - 1, task, StandIn(name).value);
          FirstThenLast(lines, n - 1, task, StandIn(name).value);
        }
      }
    }
  }

  /** A provider start says what is known about its task by then, or, without a task, what is on its line. */
  lemma StartSays(lines: seq<Line>, i: nat, name: string)
    requires i < |lines| && IsStart(lines[i])
    ensures
      var task := Said(lines[i].meta, "task_id");
      Value(StartMeta(lines, i), name) ==
        if task != "" then Known(lines, i + 1, task, name) else Merged(map[], lines[i].meta, name)
  {
    hide MergeMeta, Contexts;
    var m := lines[i].meta;
    var task := Said(m, "task_id");
    if task == "" {
      MergeAt(map[], m, name);
    } else {
      assert About(lines[i], task);
      ContextIs(lines, i + 1, task, name);
      MergeAt(Context(Contexts(lines, i + 1), task), m, name);
      StartAgain(lines, i, task, name);
      if StandIn(name).Some? {
        ContextIs(lines, i + 1, task, StandIn(name).value);
      }
    }
  }

  /** Merging the line in once more changes nothing. */
  lemma StartAgain(lines: seq<Line>, i: nat, task: string, name: string)
    requires i < |lines| && About(lines[i], task)
    ensures name in lines[i].meta ==> Known(lines, i + 1, task, name) == Some(lines[i].meta[name])
    ensures StandIn(name).Some? && StandIn(name).value in lines[i].meta ==> Known(lines, i + 1, task, name).Some?
    ensures StandIn(name).Some? ==>
      (Known(lines, i + 1, task, name).None? ==> Known(lines, i + 1, task, StandIn(name).value).None?)
  {
    if StandIn(name).Some? {
      FirstThenLast(lines, i + 1, task, StandIn(name).value);
    }
  }

  /** What every line's record says, in terms of its partner's record. */
  lemma RecordSays(lines: seq<Line>, showErrors: bool, starts: Partners, calls: Partners,
                   metas: seq<Meta>, entries: seq<Entry>, i: nat, name: string)
    requires Report(lines, showErrors, starts, calls, metas, entries) && i < |lines|
    ensures IsStart(lines[i]) ==> metas[i] == StartMeta(lines, i)
    ensures lines[i].Llm? ==>
      var partner := if lines[i].input then starts[i] else calls[i];
      && (partner.Some? ==> partner.value < i)
      && Value(metas[i], name) == Merged(if partner.Some? then metas[partner.value] else map[], lines[i].meta, name)
  {
    hide MergeMeta;
    assert RecordOk(lines, starts, calls, metas, i);
    if lines[i].Llm? {
      OutputPartner(lines, showErrors, starts, calls, metas, entries, i);
      InputPartner(lines, showErrors, starts, calls, metas, entries, i);
      var partner := if lines[i].input then starts[i] else calls[i];
      MergeAt(PartnerMeta(metas[..i], partner), lines[i].meta, name);
    }
  }

  // ---- What is listed ----

  /** The entry of a line: its own time, direction and payload, with its record; or its error. */
  ghost predicate EntryOf(line: Line, record: Meta, e: Entry) {
    match line
    case Llm(timestamp, input, _, payload) =>
      e.LlmEntry? && e.timestamp == timestamp && e.input == input && e.payload == payload && e.meta == record
    case Failure(timestamp, detail) => e.ErrorEntry? && e.timestamp == timestamp && e.detail == detail
    case _ => false
  }

  /** Entry `k` is that of line `at[k]`; all calls are listed, and errors if asked for, in the order of their lines. */
  ghost predicate Lists(lines: seq<Line>, metas: seq<Meta>, showErrors: bool, n: nat, entries: seq<Entry>, at: seq<nat>)
    requires n <= |lines| && n <= |metas|
  {
    && |at| == |entries| && Increasing(at)
    && (forall k | 0 <= k < |at| :: at[k] < n && EntryOf(lines[at[k]], metas[at[k]], entries[k]))
    && (forall i: nat | i < n :: i in at <==> lines[i].Llm? || (showErrors && lines[i].Failure?))
  }

  lemma NextListed(lines: seq<Line>, metas: seq<Meta>, showErrors: bool, n: nat, entries: seq<Entry>, at: seq<nat>,
                   e: Entry)
    requires n < |lines| && n < |metas| && Lists(lines, metas, showErrors, n, entries, at)
    requires EntryOf(lines[n], metas[n], e) && (lines[n].Failure? ==> showErrors)
    ensures Lists(lines, metas, showErrors, n + 1, entries + [e], at + [n])
  {
    assert lines[n].Llm? || (showErrors && lines[n].Failure?);
    hide EntryOf;
    var now, all := at + [n], entries + [e];
    forall k | 0 <= k < |now| ensures now[k] < n + 1 && EntryOf(lines[now[k]], metas[now[k]], all[k]) {
      assert k < |at| ==> at[k] < n && EntryOf(lines[at[k]], metas[at[k]], entries[k]);
    }
    forall i: nat | i < n + 1 ensures i in now <==> lines[i].Llm? || (showErrors && lines[i].Failure?) {
      assert now[|at|] == n;
      assert i < n ==> (i in now <==> i in at);
    }
  }

  lemma NextUnlisted(lines: seq<Line>, metas: seq<Meta>, showErrors: bool, n: nat, entries: seq<Entry>, at: seq<nat>)
    requires n < |lines| && n < |metas| && Lists(lines, metas, showErrors, n, entries, at)
    requires !lines[n].Llm? && !(showErrors && lines[n].Failure?)
    ensures Lists(lines, metas, showErrors, n + 1, entries, at)
  {
    hide EntryOf;
    forall k | 0 <= k < |at| ensures at[k] < n {
    }
  }

  lemma {:induction false} ListingLists(lines: seq<Line>, metas: seq<Meta>, showErrors: bool, n: nat)
    returns (at: seq<nat>)
    requires n <= |lines| && n <= |metas|
    ensures Lists(lines, metas, showErrors, n, Listing(lines, metas, showErrors, n), at)
  {
    if n == 0 {
      at := [];
    } else {
      var line := lines[n - 1];
      at := ListingLists(lines, metas, showErrors, n - 1);
      var before := Listing(lines, metas, showErrors, n - 1);
      var now := Listing(lines, metas, showErrors, n);
      hide Listing;
      if line.Llm? || (showErrors && line.Failure?) {
        NextListed(lines, metas, showErrors, n - 1, before, at, now[|before|]);
        at := at + [n - 1];
      } else {
        assert now == before + [] == before;
        NextUnlisted(lines, metas, showErrors, n - 1, before, at);
      }
    }
  }

  /** The report lists the entries of all calls, and of errors if asked for, in the order of the log. */
  lemma ReportLists(lines: seq<Line>, showErrors: bool, starts: Partners, calls: Partners,
                    metas: seq<Meta>, entries: seq<Entry>) returns (at: seq<nat>)
    requires Report(lines, showErrors, starts, calls, metas, entries)
    ensures Lists(lines, metas, showErrors, |lines|, entries, at)
  {
    at := ListingLists(lines, metas, showErrors, |lines|);
  }
}
