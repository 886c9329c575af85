/**
 What every step keeps about transport handles and the calls made to the
 environment: where each handle is, how often it is stopped, and which
 releases are issued.
 */
module BridgeHandles {
  import opened Text
  import opened Bridge

  /** The entry opened by attempt `h` is in the table, under the key the attempt was for. */
  ghost predicate InTable(entries: Entries, t: Attempts, h: nat) {
    h in t.requested && t.requested[h].key in entries && entries[t.requested[h].key].handle == h
  }

  /** Each started handle is in its table entry or its stop has been called; no two closes share one. */
  ghost predicate HandlesPlaced(entries: Entries, closes: seq<Close>, calls: seq<Call>, t: Attempts) {
    && (forall c, d | 0 <= c < d < |closes| :: closes[c].entry.handle != closes[d].entry.handle)
    && (forall h | h in t.started :: InTable(entries, t, h) || StopCall(h) in calls)
  }

  /** Attempts are numbered in order; each is granted first, then started or failed, never both. */
  ghost predicate AttemptsBounded(o: Opening, t: Attempts) {
    && (forall a | a in t.asked :: a < t.next)
    && t.granted.Keys <= t.asked.Keys
    && t.requested.Keys == t.granted.Keys
    && t.started.Keys <= t.granted.Keys
    && t.failed <= t.granted.Keys
    && t.started.Keys !! t.failed
    && match o
       case Idle => true
       case Asking(req, a) => a in t.asked && t.asked[a] == req && a !in t.granted
       case Starting(req, a, g, s) =>
         && a in t.granted && a !in t.started && a !in t.failed && t.asked[a] == req
         && t.granted[a] == g && t.requested[a] == StartFor(KeyOf(req), g, s)
       case RollingBack(a) => a in t.failed
  }

  /** An entry is exactly what its open attempt was granted, asked for and answered. */
  ghost predicate Traced(e: Entry, t: Attempts) {
    var h := e.handle;
    && h in t.granted && h in t.requested && h in t.started
    && t.requested[h] == StartFor(e.key, t.granted[h], t.requested[h].subscription)
    && e.subscription == Refresh(t.requested[h].subscription, t.started[h])
    && e.remoteId == RemoteId(t.granted[h], t.started[h])
    && e.viaAdapter == t.granted[h].viaAdapter
  }

  ghost predicate AllTraced(entries: Entries, closes: seq<Close>, t: Attempts) {
    && (forall k | k in entries :: Traced(entries[k], t))
    && (forall c | 0 <= c < |closes| :: Traced(closes[c].entry, t))
  }

  ghost predicate Placed(w: World) {
    && HandlesPlaced(w.entries, w.closes, w.calls, w.tries)
    && AttemptsBounded(w.opening, w.tries)
    && AllTraced(w.entries, w.closes, w.tries)
  }

  lemma RecountKeepsPlaces(entries: Entries, closes: seq<Close>, calls: seq<Call>, t: Attempts, k: Key, n: nat)
    requires HandlesPlaced(entries, closes, calls, t) && k in entries
    ensures HandlesPlaced(Recount(entries, k, n), closes, calls, t)
  {
  }

  lemma AdmitKeepsPlaces(entries: Entries, closes: seq<Close>, calls: seq<Call>, t: Attempts, e: Entry, answer: Started)
    requires HandlesPlaced(entries, closes, calls, t) && e.key !in entries
    requires e.handle in t.requested && t.requested[e.handle].key == e.key
    ensures HandlesPlaced(entries[e.key := e], closes, calls, t.(started := t.started[e.handle := answer]))
  {
  }

  lemma DetachKeepsPlaces(entries: Entries, closes: seq<Close>, calls: seq<Call>, t: Attempts, k: Key, d: Close)
    requires HandlesPlaced(entries, closes, calls, t) && k in entries && d.entry.handle == entries[k].handle
    requires forall c | 0 <= c < |closes| :: closes[c].entry.handle != d.entry.handle
    ensures HandlesPlaced(entries - {k}, closes + [d], calls + [StopCall(d.entry.handle)], t)
  {
  }

  lemma RecountKeepsTraces(entries: Entries, closes: seq<Close>, t: Attempts, k: Key, n: nat)
    requires AllTraced(entries, closes, t) && k in entries
    ensures AllTraced(Recount(entries, k, n), closes, t)
  {
  }

  lemma DetachKeepsTraces(entries: Entries, closes: seq<Close>, t: Attempts, k: Key, d: Close)
    requires AllTraced(entries, closes, t) && k in entries && d.entry == entries[k].(state := Closing)
    ensures AllTraced(entries - {k}, closes + [d], t)
  {
  }

  lemma ProgressKeepsTraces(entries: Entries, closes: seq<Close>, t: Attempts, c: nat, d: Close)
    requires AllTraced(entries, closes, t) && c < |closes|
    requires d.entry.(state := Closing) == closes[c].entry.(state := Closing)
    ensures AllTraced(entries, closes[c := d], t)
  {
  }

  /** A new grant concerns a new attempt, so it disturbs no trace. */
  lemma GrantKeepsTraces(entries: Entries, closes: seq<Close>, t: Attempts, a: nat, g: Grant, r: StartRequest)
    requires AllTraced(entries, closes, t) && a !in t.granted
    ensures AllTraced(entries, closes, t.(granted := t.granted[a := g], requested := t.requested[a := r]))
  {
  }

  lemma AdmitKeepsTraces(entries: Entries, closes: seq<Close>, t: Attempts, e: Entry, answer: Started)
    requires AllTraced(entries, closes, t) && e.handle !in t.started
    requires Traced(e, t.(started := t.started[e.handle := answer]))
    ensures AllTraced(entries[e.key := e], closes, t.(started := t.started[e.handle := answer]))
  {
    var v := t.(started := t.started[e.handle := answer]);
    forall c | 0 <= c < |closes| ensures Traced(closes[c].entry, v) {
      assert Traced(closes[c].entry, t);
    }
    forall j | j in entries ensures Traced(entries[j], v) {
      assert Traced(entries[j], t);
    }
  }

  lemma HitPlaced(w: World, k: Key)
    requires Placed(w) && w.opening.Idle? && k in w.entries
    ensures Placed(Hit(w, k))
  {
    var n := w.entries[k].refCount + 1;
    assert Hit(w, k).entries == Recount(w.entries, k, n);
    RecountKeepsPlaces(w.entries, w.closes, w.calls, w.tries, k, n);
    RecountKeepsTraces(w.entries, w.closes, w.tries, k, n);
  }

  lemma SubscribePlaced(w: World, req: Request)
    requires Placed(w) && w.opening.Idle?
    ensures Placed(ApplySubscribe(w, req))
  {
    if KeyOf(req) in w.entries {
      HitPlaced(w, KeyOf(req));
    } else {
      NextKeepsRecords(w.entries, w.closes, w.tries, req);
    }
  }

  lemma NextKeepsRecords(entries: Entries, closes: seq<Close>, t: Attempts, req: Request)
    requires AllTraced(entries, closes, t)
    ensures AllTraced(entries, closes, t.(next := t.next + 1, asked := t.asked[t.next := req]))
  {
  }

  lemma AdapterPlaced(w: World, grant: Option<Grant>, id: string)
    requires Placed(w) && w.opening.Asking?
    ensures Placed(ApplyAdapter(w, grant, id))
  {
    if grant.Some? {
      var o := w.opening;
      var s := Localise(w.path, o.req, grant.value, id);
      GrantKeepsTraces(w.entries, w.closes, w.tries, o.attempt, grant.value, StartFor(KeyOf(o.req), grant.value, s));
    }
  }

  lemma AdmitPlaced(w: World, e: Entry, answer: Started)
    requires Placed(w) && e.key !in w.entries && e.handle !in w.tries.started && e.handle !in w.tries.failed
    requires Traced(e, w.tries.(started := w.tries.started[e.handle := answer]))
    ensures Placed(Admit(w, e, answer))
  {
    AdmitKeepsPlaces(w.entries, w.closes, w.calls, w.tries, e, answer);
    AdmitKeepsTraces(w.entries, w.closes, w.tries, e, answer);
  }

  lemma NewEntryTraced(o: Opening, t: Attempts, answer: Started)
    requires AttemptsBounded(o, t) && o.Starting?
    ensures Traced(NewEntry(KeyOf(o.req), o.grant, o.subscription, answer, o.attempt),
                   t.(started := t.started[o.attempt := answer]))
  {
  }

  lemma FailurePlaced(w: World, a: nat)
    requires Placed(w) && w.opening.Starting? && w.opening.attempt == a
    ensures
      var t := w.tries.(failed := w.tries.failed + {a});
      && HandlesPlaced(w.entries, w.closes, w.calls, t)
      && HandlesPlaced(w.entries, w.closes, w.calls + [RollbackRelease(a, w.opening.grant.subscription.id)], t)
      && AllTraced(w.entries, w.closes, t)
      && AttemptsBounded(Idle, t) && AttemptsBounded(RollingBack(a), t)
  {
    FailureKeepsTraces(w.entries, w.closes, w.tries, a);
  }

  lemma TransportPlaced(w: World, started: Option<Started>)
    requires Placed(w) && w.opening.Starting? && KeyOf(w.opening.req) !in w.entries
    ensures Placed(ApplyTransport(w, started))
  {
    var o := w.opening;
    if started.Some? {
      NewEntryTraced(o, w.tries, started.value);
      AdmitPlaced(w, NewEntry(KeyOf(o.req), o.grant, o.subscription, started.value, o.attempt), started.value);
    } else {
      FailurePlaced(w, o.attempt);
    }
  }

  lemma FailureKeepsTraces(entries: Entries, closes: seq<Close>, t: Attempts, a: nat)
    requires AllTraced(entries, closes, t)
    ensures AllTraced(entries, closes, t.(failed := t.failed + {a}))
  {
  }

  lemma UnsubscribePlaced(w: World, id: string)
    requires Placed(w) && w.opening.Idle?
    requires forall k, c | k in w.entries && 0 <= c < |w.closes| :: w.entries[k].handle != w.closes[c].entry.handle
    ensures Placed(ApplyUnsubscribe(w, id))
  {
    if id in w.index && w.index[id] in w.entries {
      var k := w.index[id];
      var e := w.entries[k];
      if e.refCount > 1 {
        RecountKeepsPlaces(w.entries, w.closes, w.calls, w.tries, k, e.refCount - 1);
        RecountKeepsTraces(w.entries, w.closes, w.tries, k, e.refCount - 1);
      } else {
        var d := Close(e.(state := Closing), Stopping);
        DetachKeepsPlaces(w.entries, w.closes, w.calls, w.tries, k, d);
        DetachKeepsTraces(w.entries, w.closes, w.tries, k, d);
      }
    }
  }

  lemma ClosePlaced(w: World, c: nat, d: Close)
    requires Placed(w) && c < |w.closes| && d.entry.(state := Closing) == w.closes[c].entry.(state := Closing)
    ensures Placed(w.(closes := w.closes[c := d]))
  {
    ProgressKeepsTraces(w.entries, w.closes, w.tries, c, d);
  }

  lemma StepPlaced(w: World, s: Step)
    requires Placed(w) && Enabled(w, s)
    requires w.opening.Starting? ==> KeyOf(w.opening.req) !in w.entries
    requires forall k, c | k in w.entries && 0 <= c < |w.closes| :: w.entries[k].handle != w.closes[c].entry.handle
    ensures Placed(Apply(w, s))
  {
    match s
    case Subscribe(req) => SubscribePlaced(w, req);
    case AdapterReturns(grant, id) => AdapterPlaced(w, grant, id);
    case TransportReturns(started) => TransportPlaced(w, started);
    case RollbackReturns =>
    case Unsubscribe(id) => UnsubscribePlaced(w, id);
    case StopReturns(c, ok, registered) => ClosePlaced(w, c, Apply(w, s).closes[c]);
    case ReleaseReturns(c, ok) => ClosePlaced(w, c, Apply(w, s).closes[c]);
  }

  lemma TallyAppend(calls: seq<Call>, c: Call, kind: Kind, h: nat)
    ensures Tally(calls + [c], kind, h) == Tally(calls, kind, h) + (if Counts(c, kind, h) then 1 else 0)
  {
    assert (calls + [c])[..|calls|] == calls;
  }

  predicate ReleaseIssued(p: Progress) {
    p.Releasing? || p.Released? || p.ReleaseFailed?
  }

  /** The calls of one close: one stop, and a release once a stop has succeeded. */
  ghost predicate CloseCalls(calls: seq<Call>, d: Close) {
    var h := d.entry.handle;
    && Tally(calls, Stops, h) == 1
    && Tally(calls, Releases, h) == (if ReleaseIssued(d.progress) then 1 else 0)
    && (StopOk(h) in calls <==> !d.progress.Stopping? && !d.progress.StopFailed?)
    && (StopErr(h) in calls <==> d.progress.StopFailed?)
    && (ReleaseIssued(d.progress) || d.progress.AdapterMissing? ==> d.entry.viaAdapter)
    && (d.progress.NothingToRelease? ==> !d.entry.viaAdapter)
  }

  /** No call at all was made for a handle. */
  ghost predicate Untouched(calls: seq<Call>, h: nat) {
    && Tally(calls, Stops, h) == 0 && Tally(calls, Releases, h) == 0
    && StopOk(h) !in calls && StopErr(h) !in calls
  }

  ghost predicate InClose(closes: seq<Close>, h: nat) {
    exists c | 0 <= c < |closes| :: closes[c].entry.handle == h
  }

  ghost predicate CallsMatch(closes: seq<Close>, calls: seq<Call>) {
    && (forall c | 0 <= c < |closes| :: CloseCalls(calls, closes[c]))
    && (forall h: nat | !InClose(closes, h) :: Untouched(calls, h))
  }

  lemma DetachCalls(closes: seq<Close>, calls: seq<Call>, d: Close)
    requires CallsMatch(closes, calls) && !InClose(closes, d.entry.handle) && d.progress.Stopping?
    ensures CallsMatch(closes + [d], calls + [StopCall(d.entry.handle)])
  {
    var more := calls + [StopCall(d.entry.handle)];
    var all := closes + [d];
    assert Untouched(calls, d.entry.handle);
    forall c | 0 <= c < |all| ensures CloseCalls(more, all[c]) {
      TallyAppend(calls, StopCall(d.entry.handle), Stops, all[c].entry.handle);
      TallyAppend(calls, StopCall(d.entry.handle), Releases, all[c].entry.handle);
    }
    forall h: nat | !InClose(all, h) ensures Untouched(more, h) {
      assert all[|closes|] == d;
      assert forall c | 0 <= c < |closes| :: all[c] == closes[c];
      assert !InClose(closes, h);
      TallyAppend(calls, StopCall(d.entry.handle), Stops, h);
      TallyAppend(calls, StopCall(d.entry.handle), Releases, h);
    }
  }

  /** Calls of another kind or for another handle leave a tally alone. */
  lemma {:induction false} TallyOther(calls: seq<Call>, more: seq<Call>, kind: Kind, h: nat)
    requires forall i | 0 <= i < |more| :: !Counts(more[i], kind, h)
    ensures Tally(calls + more, kind, h) == Tally(calls, kind, h)
  {
    if more == [] {
      assert calls + more == calls;
    } else {
      var front := more[..|more| - 1];
      TallyOther(calls, front, kind, h);
      assert calls + more == (calls + front) + [more[|more| - 1]];
      TallyAppend(calls + front, more[|more| - 1], kind, h);
    }
  }

  /** One close moves on, making calls for its own handle only. */
  lemma ProgressCalls(closes: seq<Close>, calls: seq<Call>, c: nat, d: Close, more: seq<Call>)
    requires CallsMatch(closes, calls) && c < |closes| && d.entry.handle == closes[c].entry.handle
    requires forall i, j | 0 <= i < j < |closes| :: closes[i].entry.handle != closes[j].entry.handle
    requires forall i | 0 <= i < |more| :: more[i].handle == d.entry.handle
    requires CloseCalls(calls + more, d)
    ensures CallsMatch(closes[c := d], calls + more)
  {
    var all := closes[c := d];
    forall i | 0 <= i < |all| ensures CloseCalls(calls + more, all[i]) {
      if i != c {
        var h := closes[i].entry.handle;
        assert CloseCalls(calls, closes[i]);
        TallyOther(calls, more, Stops, h);
        TallyOther(calls, more, Releases, h);
      }
    }
    forall h: nat | !InClose(all, h) ensures Untouched(calls + more, h) {
      assert all[c].entry.handle != h;
      forall i | 0 <= i < |closes| ensures closes[i].entry.handle != h {
        assert all[i].entry.handle == closes[i].entry.handle;
      }
      assert !InClose(closes, h);
      TallyOther(calls, more, Stops, h);
      TallyOther(calls, more, Releases, h);
    }
  }

  lemma StopErrCalls(closes: seq<Close>, calls: seq<Call>, c: nat)
    requires CallsMatch(closes, calls) && c < |closes| && closes[c].progress.Stopping?
    requires forall i, j | 0 <= i < j < |closes| :: closes[i].entry.handle != closes[j].entry.handle
    ensures CallsMatch(closes[c := Close(closes[c].entry, StopFailed)], calls + [StopErr(closes[c].entry.handle)])
  {
    var h := closes[c].entry.handle;
    assert CloseCalls(calls, closes[c]);
    TallyAppend(calls, StopErr(h), Stops, h);
    TallyAppend(calls, StopErr(h), Releases, h);
    ProgressCalls(closes, calls, c, Close(closes[c].entry, StopFailed), [StopErr(h)]);
  }

  lemma StopOkCalls(closes: seq<Close>, calls: seq<Call>, c: nat, registered: bool)
    requires CallsMatch(closes, calls) && c < |closes| && closes[c].progress.Stopping?
    requires forall i, j | 0 <= i < j < |closes| :: closes[i].entry.handle != closes[j].entry.handle
    ensures
      var e := closes[c].entry;
      var (progress, more) := AfterStop(e, registered);
      CallsMatch(closes[c := Close(e.(state := Closed), progress)], calls + [StopOk(e.handle)] + more)
  {
    var e := closes[c].entry;
    var (progress, more) := AfterStop(e, registered);
    var d := Close(e.(state := Closed), progress);
    var h := e.handle;
    assert CloseCalls(calls, closes[c]);
    TallyAppend(calls, StopOk(h), Stops, h);
    TallyAppend(calls, StopOk(h), Releases, h);
    if more == [] {
      assert calls + [StopOk(h)] + more == calls + [StopOk(h)];
    } else {
      TallyAppend(calls + [StopOk(h)], more[0], Stops, h);
      TallyAppend(calls + [StopOk(h)], more[0], Releases, h);
    }
    assert CloseCalls(calls + [StopOk(h)] + more, d);
    assert calls + [StopOk(h)] + more == calls + ([StopOk(h)] + more);
    ProgressCalls(closes, calls, c, d, [StopOk(h)] + more);
  }

  /** No two closes, and no close and table entry, share a handle. */
  ghost predicate Apart(w: World) {
    && (forall i, j | 0 <= i < j < |w.closes| :: w.closes[i].entry.handle != w.closes[j].entry.handle)
    && (forall k, c | k in w.entries && 0 <= c < |w.closes| :: w.entries[k].handle != w.closes[c].entry.handle)
  }

  lemma ReleaseCalls(w: World, c: nat, ok: bool)
    requires CallsMatch(w.closes, w.calls) && c < |w.closes| && w.closes[c].progress.Releasing?
    requires Apart(w)
    ensures
      var v := ApplyRelease(w, c, ok);
      CallsMatch(v.closes, v.calls)
  {
    var v := ApplyRelease(w, c, ok);
    assert w.calls + [] == w.calls;
    assert CloseCalls(w.calls, w.closes[c]);
    ProgressCalls(w.closes, w.calls, c, v.closes[c], []);
  }

  /** One rollback release per failed start whose grant asked for it, none otherwise. */
  ghost predicate RollbacksMatch(calls: seq<Call>, t: Attempts) {
    forall a: nat ::
      Tally(calls, Rollbacks, a) == (if a in t.failed && a in t.granted && t.granted[a].viaAdapter then 1 else 0)
  }

  /** A release names the recorded remote id, and a closing one follows a successful stop. */
  ghost predicate ReleaseOk(calls: seq<Call>, p: nat, t: Attempts)
    requires p < |calls|
  {
    match calls[p]
    case CloseRelease(h, adapter, remoteId) =>
      && StopOk(h) in calls[..p]
      && h in t.granted && h in t.requested && h in t.started
      && t.granted[h].viaAdapter
      && adapter == t.requested[h].subscription.route.adapter
      && remoteId == RemoteId(t.granted[h], t.started[h])
    case RollbackRelease(a, remoteId) =>
      a in t.failed && a in t.granted && t.granted[a].viaAdapter && remoteId == t.granted[a].subscription.id
    case _ => true
  }

  ghost predicate ReleasesOk(calls: seq<Call>, t: Attempts) {
    forall p | 0 <= p < |calls| :: ReleaseOk(calls, p, t)
  }

  lemma ReleasesOkAppend(calls: seq<Call>, c: Call, t: Attempts)
    requires ReleasesOk(calls, t)
    requires ReleaseOk(calls + [c], |calls|, t)
    ensures ReleasesOk(calls + [c], t)
  {
    var all := calls + [c];
    forall p | 0 <= p < |all| ensures ReleaseOk(all, p, t) {
      if p < |calls| {
        assert all[..p] == calls[..p];
        assert ReleaseOk(calls, p, t);
      }
    }
  }

  /** The records of attempts only grow. */
  ghost predicate Extends(t: Attempts, u: Attempts) {
    && (forall a | a in t.asked :: a in u.asked && u.asked[a] == t.asked[a])
    && (forall a | a in t.granted :: a in u.granted && u.granted[a] == t.granted[a])
    && (forall a | a in t.requested :: a in u.requested && u.requested[a] == t.requested[a])
    && (forall a | a in t.started :: a in u.started && u.started[a] == t.started[a])
    && t.failed <= u.failed
  }

  lemma ReleasesOkExtends(calls: seq<Call>, t: Attempts, u: Attempts)
    requires ReleasesOk(calls, t) && Extends(t, u)
    ensures ReleasesOk(calls, u)
  {
    forall p | 0 <= p < |calls| ensures ReleaseOk(calls, p, u) {
      assert ReleaseOk(calls, p, t);
    }
  }

  lemma RollbackCalls(closes: seq<Close>, calls: seq<Call>, a: nat, remoteId: string)
    requires CallsMatch(closes, calls)
    ensures CallsMatch(closes, calls + [RollbackRelease(a, remoteId)])
  {
    var c := RollbackRelease(a, remoteId);
    forall h: nat ensures Tally(calls + [c], Stops, h) == Tally(calls, Stops, h)
        && Tally(calls + [c], Releases, h) == Tally(calls, Releases, h) {
      TallyAppend(calls, c, Stops, h);
      TallyAppend(calls, c, Releases, h);
    }
  }

  lemma UnsubscribeCalls(w: World, id: string)
    requires CallsMatch(w.closes, w.calls) && Apart(w)
    ensures
      var v := ApplyUnsubscribe(w, id);
      CallsMatch(v.closes, v.calls)
  {
    if id in w.index && w.index[id] in w.entries {
      var e := w.entries[w.index[id]];
      if e.refCount <= 1 {
        DetachCalls(w.closes, w.calls, Close(e.(state := Closing), Stopping));
      }
    }
  }

  lemma StepCalls(w: World, s: Step)
    requires CallsMatch(w.closes, w.calls) && Apart(w) && Enabled(w, s)
    ensures CallsMatch(Apply(w, s).closes, Apply(w, s).calls)
  {
    match s
    case Subscribe(_) =>
    case AdapterReturns(_, _) =>
    case TransportReturns(started) =>
      if started.None? && w.opening.grant.viaAdapter {
        RollbackCalls(w.closes, w.calls, w.opening.attempt, w.opening.grant.subscription.id);
      }
    case RollbackReturns =>
    case Unsubscribe(id) => UnsubscribeCalls(w, id);
    case StopReturns(c, ok, registered) =>
      if ok {
        StopOkCalls(w.closes, w.calls, c, registered);
      } else {
        StopErrCalls(w.closes, w.calls, c);
      }
    case ReleaseReturns(c, ok) => ReleaseCalls(w, c, ok);
  }

  lemma OtherCallsKeepRollbacks(calls: seq<Call>, more: seq<Call>, t: Attempts)
    requires RollbacksMatch(calls, t) && forall i | 0 <= i < |more| :: !more[i].RollbackRelease?
    ensures RollbacksMatch(calls + more, t)
  {
    forall a: nat ensures Tally(calls + more, Rollbacks, a) == Tally(calls, Rollbacks, a) {
      TallyOther(calls, more, Rollbacks, a);
    }
  }

  lemma TransportRollbacks(w: World, started: Option<Started>)
    requires RollbacksMatch(w.calls, w.tries) && AttemptsBounded(w.opening, w.tries) && w.opening.Starting?
    ensures
      var v := ApplyTransport(w, started);
      RollbacksMatch(v.calls, v.tries)
  {
    if started.None? && w.opening.grant.viaAdapter {
      var c := RollbackRelease(w.opening.attempt, w.opening.grant.subscription.id);
      forall a: nat ensures Tally(w.calls + [c], Rollbacks, a) ==
          Tally(w.calls, Rollbacks, a) + (if a == w.opening.attempt then 1 else 0) {
        TallyAppend(w.calls, c, Rollbacks, a);
      }
    }
  }

  lemma CloseRollbacks(w: World, id: string)
    requires RollbacksMatch(w.calls, w.tries)
    ensures RollbacksMatch(ApplyUnsubscribe(w, id).calls, w.tries)
  {
    var now := ApplyUnsubscribe(w, id).calls;
    var more := now[|w.calls|..];
    assert now == w.calls + more;
    OtherCallsKeepRollbacks(w.calls, more, w.tries);
  }

  lemma StopRollbacks(w: World, c: nat, ok: bool, registered: bool)
    requires RollbacksMatch(w.calls, w.tries) && c < |w.closes|
    ensures RollbacksMatch(ApplyStop(w, c, ok, registered).calls, w.tries)
  {
    var now := ApplyStop(w, c, ok, registered).calls;
    var more := now[|w.calls|..];
    assert now == w.calls + more;
    OtherCallsKeepRollbacks(w.calls, more, w.tries);
  }

  lemma StepRollbacks(w: World, s: Step)
    requires RollbacksMatch(w.calls, w.tries) && AttemptsBounded(w.opening, w.tries) && Enabled(w, s)
    ensures RollbacksMatch(Apply(w, s).calls, Apply(w, s).tries)
  {
    match s
    case Subscribe(_) =>
    case AdapterReturns(_, _) =>
    case TransportReturns(started) => TransportRollbacks(w, started);
    case RollbackReturns =>
    case Unsubscribe(id) => CloseRollbacks(w, id);
    case StopReturns(c, ok, registered) => StopRollbacks(w, c, ok, registered);
    case ReleaseReturns(_, _) =>
  }

  lemma StopReleases(w: World, c: nat, ok: bool, registered: bool)
    requires ReleasesOk(w.calls, w.tries) && AllTraced(w.entries, w.closes, w.tries) && c < |w.closes|
    ensures ReleasesOk(ApplyStop(w, c, ok, registered).calls, w.tries)
  {
    var e := w.closes[c].entry;
    assert Traced(e, w.tries);
    if ok {
      ReleasesOkAppend(w.calls, StopOk(e.handle), w.tries);
      var (_, more) := AfterStop(e, registered);
      if more == [] {
        assert w.calls + [StopOk(e.handle)] + more == w.calls + [StopOk(e.handle)];
      } else {
        var all := w.calls + [StopOk(e.handle)];
        assert (all + more)[..|all|] == all;
        ReleasesOkAppend(all, more[0], w.tries);
      }
    } else {
      ReleasesOkAppend(w.calls, StopErr(e.handle), w.tries);
    }
  }

  lemma UnsubscribeReleases(w: World, id: string)
    requires ReleasesOk(w.calls, w.tries)
    ensures ReleasesOk(ApplyUnsubscribe(w, id).calls, w.tries)
  {
    if id in w.index && w.index[id] in w.entries && w.entries[w.index[id]].refCount <= 1 {
      ReleasesOkAppend(w.calls, StopCall(w.entries[w.index[id]].handle), w.tries);
    }
  }

  lemma TransportReleases(w: World, started: Option<Started>)
    requires ReleasesOk(w.calls, w.tries) && AttemptsBounded(w.opening, w.tries) && w.opening.Starting?
    ensures ReleasesOk(ApplyTransport(w, started).calls, ApplyTransport(w, started).tries)
  {
    var v := ApplyTransport(w, started);
    ReleasesOkExtends(w.calls, w.tries, v.tries);
    if started.None? && w.opening.grant.viaAdapter {
      ReleasesOkAppend(w.calls, RollbackRelease(w.opening.attempt, w.opening.grant.subscription.id), v.tries);
    }
  }

  lemma AdapterReleases(w: World, grant: Option<Grant>, id: string)
    requires ReleasesOk(w.calls, w.tries) && AttemptsBounded(w.opening, w.tries) && w.opening.Asking?
    ensures ReleasesOk(w.calls, ApplyAdapter(w, grant, id).tries)
  {
    ReleasesOkExtends(w.calls, w.tries, ApplyAdapter(w, grant, id).tries);
  }

  lemma SubscribeReleases(w: World, req: Request)
    requires ReleasesOk(w.calls, w.tries) && AttemptsBounded(w.opening, w.tries)
    ensures ReleasesOk(w.calls, ApplySubscribe(w, req).tries)
  {
    ReleasesOkExtends(w.calls, w.tries, ApplySubscribe(w, req).tries);
  }

  lemma StepReleases(w: World, s: Step)
    requires ReleasesOk(w.calls, w.tries) && Enabled(w, s)
    requires AttemptsBounded(w.opening, w.tries) && AllTraced(w.entries, w.closes, w.tries)
    ensures ReleasesOk(Apply(w, s).calls, Apply(w, s).tries)
  {
    match s
    case Subscribe(req) => SubscribeReleases(w, req);
    case AdapterReturns(grant, id) => AdapterReleases(w, grant, id);
    case TransportReturns(started) => TransportReleases(w, started);
    case RollbackReturns =>
    case Unsubscribe(id) => UnsubscribeReleases(w, id);
    case StopReturns(c, ok, registered) => StopReleases(w, c, ok, registered);
    case ReleaseReturns(_, _) =>
  }
}
