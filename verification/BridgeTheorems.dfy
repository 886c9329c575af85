/**
 The promises of the event bridge, for every run from a fresh manager: every
 interleaving of subscribes, unsubscribes and closes in flight, with every
 answer the adapter and the transport may give.
 */
module BridgeTheorems {
  import opened Text
  import opened Bridge
  import opened BridgeTables
  import opened BridgeHandles
  import opened BridgeAnswers
  import EventPath

  ghost predicate Good(w: World) {
    && Consistent(w)
    && Placed(w)
    && CallsMatch(w.closes, w.calls)
    && RollbacksMatch(w.calls, w.tries)
    && ReleasesOk(w.calls, w.tries)
    && Answered(w.opening, w.tries)
    && RequestsMade(w.path, w.tries)
    && AllTold(w.api, w.tries)
  }

  /** Every granted attempt was started, failed, or is the lock holder's. */
  ghost predicate Answered(o: Opening, t: Attempts) {
    forall a | a in t.granted :: a in t.started || a in t.failed || (o.Starting? && o.attempt == a)
  }

  lemma StepAnswered(w: World, s: Step)
    requires Answered(w.opening, w.tries) && Enabled(w, s)
    ensures Answered(Apply(w, s).opening, Apply(w, s).tries)
  {
    match s
    case Subscribe(_) =>
    case AdapterReturns(_, _) =>
    case TransportReturns(_) =>
    case RollbackReturns =>
    case Unsubscribe(_) =>
    case StopReturns(_, _, _) =>
    case ReleaseReturns(_, _) =>
  }

  /** A detached entry has left the tables, so its handle is in no entry. */
  lemma GoodApart(w: World)
    requires Sound(w) && Placed(w)
    ensures Apart(w)
  {
    forall k, c | k in w.entries && 0 <= c < |w.closes|
      ensures w.entries[k].handle != w.closes[c].entry.handle
    {
      assert EntryOk(w.index, k, w.entries[k]);
      assert Traced(w.entries[k], w.tries) && Traced(w.closes[c].entry, w.tries);
    }
  }

  /** The parts of the invariant that single steps rely on. */
  lemma GoodParts(w: World)
    requires Consistent(w) && Placed(w)
    ensures TablesAgree(w.entries, w.index) && AttemptsBounded(w.opening, w.tries) && Apart(w)
    ensures AllTraced(w.entries, w.closes, w.tries) && (w.opening.Starting? ==> KeyOf(w.opening.req) !in w.entries)
  {
    GoodApart(w);
  }

  lemma StepGood(w: World, s: Step)
    requires Good(w) && Enabled(w, s)
    ensures Good(Apply(w, s))
  {
    hide Apply, Enabled, Consistent, Placed, CallsMatch, RollbacksMatch, ReleasesOk, Answered, RequestsMade, AllTold;
    hide TablesAgree, AttemptsBounded, AllTraced;
    GoodParts(w);
    StepConsistent(w, s);
    StepPlaced(w, s);
    StepCalls(w, s);
    StepRollbacks(w, s);
    StepReleases(w, s);
    StepAnswered(w, s);
    StepRequests(w, s);
    StepTold(w, s);
  }

  lemma FreshGood(path: Encoder)
    ensures Good(Fresh(path))
  {
  }

  lemma {:induction false} RunGood(w: World, steps: seq<Step>)
    requires Good(w) && Feasible(w, steps)
    ensures Good(After(w, steps))
    decreases |steps|
  {
    if steps != [] {
      StepGood(w, steps[0]);
      RunGood(Apply(w, steps[0]), steps[1..]);
    }
  }

  /** A state some run of a fresh manager ends in. */
  ghost predicate Reachable(w: World) {
    exists steps :: Feasible(Fresh(w.path), steps) && After(Fresh(w.path), steps) == w
  }

  lemma ReachableGood(w: World)
    requires Reachable(w)
    ensures Good(w)
  {
    var steps :| Feasible(Fresh(w.path), steps) && After(Fresh(w.path), steps) == w;
    FreshGood(w.path);
    RunGood(Fresh(w.path), steps);
  }

  // ---- The tables ----

  /**
   The tables are exact inverses, so the stale-index branch of `unsubscribe` is
   dead code; and the sink of every live entry, the one its transport was started
   with, carries that entry's key, local id and event path.
   */
  lemma TablesAreInverses(w: World)
    requires Reachable(w)
    ensures forall id | id in w.index :: w.index[id] in w.entries && w.entries[w.index[id]].subscription.id == id
    ensures forall k | k in w.entries ::
      var e := w.entries[k];
      && e.key == k && e.state == Active
      && e.subscription.id in w.index && w.index[e.subscription.id] == k
      && e.handle in w.tries.requested
      && w.tries.requested[e.handle].sink == Sink(k, e.subscription.pattern, e.subscription.id)
      && e.subscription.pattern == w.path(e.subscription.obj, e.subscription.event)
  {
    ReachableGood(w);
    forall k | k in w.entries
      ensures
        var e := w.entries[k];
        && EntryOk(w.index, k, e)
        && e.handle in w.tries.requested
        && w.tries.requested[e.handle].sink == Sink(k, e.subscription.pattern, e.subscription.id)
        && e.subscription.pattern == w.path(e.subscription.obj, e.subscription.event)
    {
      assert Traced(w.entries[k], w.tries);
      EntryValues(w, w.entries[k]);
    }
  }

  /** With the encoder of event_bridge.rs, every live event path has the published shape. */
  lemma LivePathsAreWellShaped(w: World, f: EventPath.Foreign, k: Key)
    requires Reachable(w) && k in w.entries && EventPath.DigestsAreLong(f)
    requires forall o, e :: w.path(o, e) == EventPath.Encode(f, o, e)
    ensures
      var s := w.entries[k].subscription;
      Split(s.pattern, '/') == ["", "obj"] + EventPath.ObjectSegments(f, s.obj) + [EventPath.Safe(s.event)]
  {
    TablesAreInverses(w);
    var s := w.entries[k].subscription;
    EventPath.EncodeShape(f, s.obj, s.event);
  }

  /** A key is live exactly when some subscribe of it is still claimed. */
  lemma EntriesAreLiveKeys(w: World)
    requires Consistent(w)
    ensures w.entries.Keys == LiveKeys(w.api)
  {
    forall k | k in w.entries ensures k in LiveKeys(w.api) {
      var a := Subscribed(k, w.entries[k].subscription);
      assert a in w.api;
      var i :| 0 <= i < |w.api| && w.api[i] == a;
      assert EntryOk(w.index, k, w.entries[k]);
      assert Claims(w.api, w.api[i].subscription.id) == Held(w.entries, w.index, w.api[i].subscription.id);
    }
    forall k | k in LiveKeys(w.api) ensures k in w.entries {
      var i :|
        0 <= i < |w.api| && w.api[i].Subscribed? && Claims(w.api, w.api[i].subscription.id) > 0 && w.api[i].key == k;
      HeldIsRemembered(w, i);
    }
  }

  /**
   The manager refines a counter per id: a reference count is the number of
   outstanding claims in the callers' history, an id is indexed exactly while it
   is claimed, and `active_count` is the number of keys with a live claim.
   */
  lemma CountsAreClaims(w: World)
    requires Reachable(w)
    ensures forall k | k in w.entries ::
      w.entries[k].refCount == Claims(w.api, w.entries[k].subscription.id) && w.entries[k].refCount >= 1
    ensures forall id :: id in w.index <==> Claims(w.api, id) > 0
    ensures ActiveCount(w) == |LiveKeys(w.api)|
    ensures forall k :: SnapshotOf(w, k).Some? <==> k in LiveKeys(w.api)
  {
    ReachableGood(w);
    EntriesAreLiveKeys(w);
    assert |w.entries| == |w.entries.Keys|;
    forall k | k in w.entries
      ensures w.entries[k].refCount == Claims(w.api, w.entries[k].subscription.id) && w.entries[k].refCount >= 1
    {
      assert EntryOk(w.index, k, w.entries[k]);
      var id := w.entries[k].subscription.id;
      assert Claims(w.api, id) == Held(w.entries, w.index, id);
    }
    forall id ensures id in w.index <==> Claims(w.api, id) > 0 {
      assert Claims(w.api, id) == Held(w.entries, w.index, id);
      if id in w.index {
        assert EntryOk(w.index, w.index[id], w.entries[w.index[id]]);
      }
    }
  }

  /** Overlapping subscribers of one key receive the identical subscription value. */
  lemma OverlappingSubscribersAgree(w: World, i: nat, j: nat)
    requires Reachable(w) && i < j < |w.api|
    requires w.api[i].Subscribed? && w.api[j].Subscribed? && w.api[i].key == w.api[j].key
    requires Claims(w.api[..j], w.api[i].subscription.id) > 0
    ensures w.api[i].subscription == w.api[j].subscription
  {
    ReachableGood(w);
  }

  // ---- What callers and the environment are told ----

  /**
   Every live entry and its snapshot: the key and the route of the request that
   opened it, the grant's object and event, and what the transport answered, or
   else the grant, for the rest.
   */
  lemma EntriesAreAsAnswered(w: World, k: Key)
    requires Reachable(w) && k in w.entries
    ensures
      var e := w.entries[k];
      && ValuesFrom(w, e.handle, k, e.subscription)
      && RemoteFrom(e.remoteId, w.tries.granted[e.handle], w.tries.started[e.handle])
      && SnapshotOf(w, k).Some?
      && var s := SnapshotOf(w, k).value;
      && s.key == k && s.state == Active && s.refCount == Claims(w.api, s.subscription.id)
      && s.subscription == e.subscription && s.remoteId == e.remoteId
  {
    ReachableGood(w);
    CountsAreClaims(w);
    assert EntryOk(w.index, k, w.entries[k]);
    EntryValues(w, w.entries[k]);
  }

  /** Every subscription a caller was ever told is that of some attempt, under the key asked for. */
  lemma CallersAreToldAnswers(w: World, i: nat)
    requires Reachable(w) && i < |w.api| && w.api[i].Subscribed?
    ensures exists h :: ValuesFrom(w, h, w.api[i].key, w.api[i].subscription)
  {
    ReachableGood(w);
    var h :| OpenedBy(w.tries, h, w.api[i].key, w.api[i].subscription);
    OpenedValues(w, h, w.api[i].key, w.api[i].subscription);
  }

  /** What a transport is started with: the grant's values under a local id, and a sink for that id and its path. */
  lemma TransportsAreAsked(w: World, a: nat)
    requires Reachable(w) && a in w.tries.requested
    ensures a in w.tries.asked && a in w.tries.granted
    ensures
      var q, g, r := w.tries.asked[a], w.tries.granted[a], w.tries.requested[a];
      && KeyFrom(r.key, q) && r.remoteId == g.subscription.id
      && SubscriptionFrom(w.path, r.subscription, q, g, Started(None, None, None, None))
      && r.sink.key == r.key && r.sink.localId == r.subscription.id && r.sink.pattern == r.subscription.pattern
  {
    ReachableGood(w);
  }

  /** A close releases the transport's remote id, else the adapter's; a rollback always the adapter's own. */
  lemma ReleasesNameTheRemote(w: World, p: nat)
    requires Reachable(w) && p < |w.calls|
    ensures w.calls[p].CloseRelease? ==>
      var c := w.calls[p];
      && Finished(w.tries, c.handle)
      && RemoteFrom(c.remoteId, w.tries.granted[c.handle], w.tries.started[c.handle])
      && c.adapter == w.tries.asked[c.handle].route.adapter
    ensures w.calls[p].RollbackRelease? ==>
      w.calls[p].handle in w.tries.granted && w.calls[p].remoteId == w.tries.granted[w.calls[p].handle].subscription.id
  {
    ReachableGood(w);
    assert ReleaseOk(w.calls, p, w.tries);
  }

  /**
   Who shares an entry: a request joins one exactly if adapter, object, event and
   filter hash are those of the request that opened it, and is told its value.
   */
  lemma RequestsShareIff(w: World, req: Request)
    requires Reachable(w) && w.opening.Idle?
    ensures
      var v := ApplySubscribe(w, req);
      && (v.opening.Idle? <==> exists k :: k in w.entries && KeyFrom(k, req))
      && (forall k | k in w.entries && KeyFrom(k, req) :: v.api == w.api + [Subscribed(k, w.entries[k].subscription)])
      && (v.opening.Idle? || v == w.(opening := v.opening, tries := v.tries))
    ensures forall k | k in w.entries && KeyFrom(k, req) ::
      && w.entries[k].handle in w.tries.asked
      && var q := w.tries.asked[w.entries[k].handle];
      q.adapter == req.adapter && q.obj == req.obj && q.event == req.event && q.filterHash == req.filterHash
  {
    forall k | KeyFrom(k, req) ensures k == KeyOf(req) {
    }
    forall k | k in w.entries ensures ValuesFrom(w, w.entries[k].handle, k, w.entries[k].subscription) {
      EntriesAreAsAnswered(w, k);
    }
    assert KeyFrom(KeyOf(req), req);
  }

  // ---- Transport handles ----

  ghost predicate InSomeEntry(w: World, h: nat) {
    exists k | k in w.entries :: w.entries[k].handle == h
  }

  /**
   Every handle that a transport start produced is in exactly one place, one
   entry or one close; `stop` is called on it once if it is in a close and never
   otherwise; and no other handle is ever stopped.
   */
  lemma HandlesAreConserved(w: World, h: nat)
    requires Reachable(w)
    ensures h in w.tries.started <==> InSomeEntry(w, h) || InClose(w.closes, h)
    ensures !(InSomeEntry(w, h) && InClose(w.closes, h))
    ensures forall j, k | j in w.entries && k in w.entries && w.entries[j].handle == w.entries[k].handle :: j == k
    ensures forall c, d | 0 <= c < |w.closes| && 0 <= d < |w.closes|
        && w.closes[c].entry.handle == w.closes[d].entry.handle :: c == d
    ensures Tally(w.calls, Stops, h) == (if InClose(w.closes, h) then 1 else 0)
  {
    ReachableGood(w);
    GoodApart(w);
    HandlesAreUnique(w);
    StartedIsSomewhere(w, h);
    if InClose(w.closes, h) {
      var c :| 0 <= c < |w.closes| && w.closes[c].entry.handle == h;
      assert CloseCalls(w.calls, w.closes[c]);
    } else {
      assert Untouched(w.calls, h);
    }
  }

  lemma HandlesAreUnique(w: World)
    requires Sound(w) && Placed(w)
    ensures forall j, k | j in w.entries && k in w.entries && w.entries[j].handle == w.entries[k].handle :: j == k
  {
    forall j, k | j in w.entries && k in w.entries && w.entries[j].handle == w.entries[k].handle
      ensures j == k
    {
      assert EntryOk(w.index, j, w.entries[j]) && EntryOk(w.index, k, w.entries[k]);
      assert Traced(w.entries[j], w.tries) && Traced(w.entries[k], w.tries);
    }
  }

  lemma {:induction false} CalledIsTallied(calls: seq<Call>, h: nat)
    requires StopCall(h) in calls
    ensures Tally(calls, Stops, h) > 0
  {
    var front := calls[..|calls| - 1];
    if calls[|calls| - 1] != StopCall(h) {
      assert calls == front + [calls[|calls| - 1]];
      assert StopCall(h) in front;
      CalledIsTallied(front, h);
    }
  }

  lemma StartedIsSomewhere(w: World, h: nat)
    requires Good(w)
    ensures h in w.tries.started <==> InSomeEntry(w, h) || InClose(w.closes, h)
  {
    if h in w.tries.started {
      if InTable(w.entries, w.tries, h) {
        assert w.entries[w.tries.requested[h].key].handle == h;
      } else if !InClose(w.closes, h) {
        assert Untouched(w.calls, h);
        CalledIsTallied(w.calls, h);
      }
    }
    if k :| k in w.entries && w.entries[k].handle == h {
      assert Traced(w.entries[k], w.tries);
    }
    if c :| 0 <= c < |w.closes| && w.closes[c].entry.handle == h {
      assert Traced(w.closes[c].entry, w.tries);
    }
  }

  /** Nobody holds the lock, nobody holds a claim, and no close waits for an answer. */
  ghost predicate Quiescent(w: World) {
    && w.opening.Idle?
    && (forall id :: Claims(w.api, id) == 0)
    && (forall c | 0 <= c < |w.closes| :: !w.closes[c].progress.Stopping? && !w.closes[c].progress.Releasing?)
  }

  /**
   No leak: once every claim is dropped and every close has finished, the tables
   are empty, and every handle ever started was stopped, unless its own stop failed.
   */
  lemma NoHandleLeaks(w: World)
    requires Reachable(w) && Quiescent(w)
    ensures w.entries == map[] && w.index == map[]
    ensures forall h | h in w.tries.started :: StopOk(h) in w.calls <==> StopErr(h) !in w.calls
  {
    ReachableGood(w);
    CountsAreClaims(w);
    assert w.index.Keys == {};
    assert w.entries.Keys == {} by {
      TablesAreInverses(w);
    }
    forall h | h in w.tries.started ensures StopOk(h) in w.calls <==> StopErr(h) !in w.calls {
      StartedIsSomewhere(w, h);
      var c :| 0 <= c < |w.closes| && w.closes[c].entry.handle == h;
      assert CloseCalls(w.calls, w.closes[c]);
    }
  }

  // ---- Releases ----

  /**
   A close issues at most one adapter release, only for an entry opened that way,
   only after its stop succeeded, to the adapter of the entry's route and with the
   recorded remote id; a failed start issues exactly one release of the adapter's
   own id when the grant asked for it, and none otherwise.
   */
  lemma ReleasesAreDisciplined(w: World)
    requires Reachable(w)
    ensures forall h: nat :: Tally(w.calls, Releases, h) <= 1
    ensures forall p | 0 <= p < |w.calls| :: ReleaseOk(w.calls, p, w.tries)
    ensures RollbacksMatch(w.calls, w.tries)
    ensures forall c | 0 <= c < |w.closes| && w.closes[c].progress.Released? ::
      w.closes[c].entry.viaAdapter && Tally(w.calls, Releases, w.closes[c].entry.handle) == 1
  {
    ReachableGood(w);
    forall h: nat ensures Tally(w.calls, Releases, h) <= 1 {
      if InClose(w.closes, h) {
        var c :| 0 <= c < |w.closes| && w.closes[c].entry.handle == h;
        assert CloseCalls(w.calls, w.closes[c]);
      } else {
        assert Untouched(w.calls, h);
      }
    }
    forall c | 0 <= c < |w.closes| && w.closes[c].progress.Released?
      ensures w.closes[c].entry.viaAdapter && Tally(w.calls, Releases, w.closes[c].entry.handle) == 1
    {
      assert CloseCalls(w.calls, w.closes[c]);
    }
  }

  /** The calls that undo a grant of the adapter: a rollback if its start failed, else a release by its close. */
  ghost predicate Undone(w: World, a: nat)
    requires a in w.tries.granted
  {
    if a in w.tries.failed then
      a !in w.tries.started && Tally(w.calls, Rollbacks, a) == 1 && Tally(w.calls, Releases, a) == 0
    else
      && a in w.tries.started && Tally(w.calls, Rollbacks, a) == 0
      && exists c :: 0 <= c < |w.closes| && w.closes[c].entry.handle == a
           && (Tally(w.calls, Releases, a) == 1
               <==> !w.closes[c].progress.StopFailed? && !w.closes[c].progress.AdapterMissing?)
           && (w.closes[c].progress.StopFailed? <==> StopErr(a) in w.calls)
  }

  /**
   No remote leak: once every claim is dropped and every close has finished, each
   grant to be undone through the adapter has been released, once, unless its own
   stop failed or its adapter was gone.
   */
  lemma NoRemoteLeaks(w: World, a: nat)
    requires Reachable(w) && Quiescent(w) && a in w.tries.granted && w.tries.granted[a].viaAdapter
    ensures Undone(w, a)
  {
    ReachableGood(w);
    NoHandleLeaks(w);
    StartedIsSomewhere(w, a);
    if a in w.tries.failed {
      FailedIsUntouched(w, a);
    } else {
      var c :| 0 <= c < |w.closes| && w.closes[c].entry.handle == a;
      FinishedClose(w, c);
    }
  }

  lemma FailedIsUntouched(w: World, a: nat)
    requires Good(w) && a in w.tries.failed
    ensures a !in w.tries.started && Tally(w.calls, Releases, a) == 0
  {
    StartedIsSomewhere(w, a);
    assert Untouched(w.calls, a);
  }

  lemma FinishedClose(w: World, c: nat)
    requires Good(w) && Quiescent(w) && c < |w.closes|
    ensures
      var d := w.closes[c];
      && d.entry.handle in w.tries.granted && d.entry.viaAdapter == w.tries.granted[d.entry.handle].viaAdapter
      && (d.progress.StopFailed? <==> StopErr(d.entry.handle) in w.calls)
      && (d.entry.viaAdapter ==>
            (Tally(w.calls, Releases, d.entry.handle) == 1
             <==> !d.progress.StopFailed? && !d.progress.AdapterMissing?))
  {
    assert Traced(w.closes[c].entry, w.tries) && CloseCalls(w.calls, w.closes[c]);
  }

  // ---- Closes in flight ----

  /** An id that was issued and is neither indexed nor about to be. */
  ghost predicate Dead(w: World, id: string) {
    id in w.issued && id !in w.index && !Pending(w.opening, id)
  }

  lemma StepKeepsDead(w: World, s: Step, id: string)
    requires Dead(w, id) && Enabled(w, s)
    ensures Dead(Apply(w, s), id)
  {
    match s
    case AdapterReturns(_, _) =>
    case TransportReturns(_) =>
    case Unsubscribe(name) =>
      var v := ApplyUnsubscribe(w, name);
      assert v.index.Keys <= w.index.Keys;
    case _ =>
  }

  /** A dead id stays dead for ever, and unsubscribing it changes nothing but the callers' history. */
  lemma {:induction false} DeadIdsStayDead(w: World, steps: seq<Step>, id: string)
    requires Dead(w, id) && Feasible(w, steps)
    ensures
      var v := After(w, steps);
      Dead(v, id) && ApplyUnsubscribe(v, id) == v.(api := v.api + [Unsubscribed(id)])
    decreases |steps|
  {
    if steps != [] {
      StepKeepsDead(w, steps[0], id);
      DeadIdsStayDead(Apply(w, steps[0]), steps[1..], id);
    }
  }

  ghost predicate SameClose(d: Close, e: Close) {
    d.entry.(state := Closing) == e.entry.(state := Closing)
  }

  lemma StepKeepsClose(w: World, s: Step, c: nat)
    requires Enabled(w, s) && c < |w.closes|
    ensures |Apply(w, s).closes| >= |w.closes| && SameClose(Apply(w, s).closes[c], w.closes[c])
  {
    match s
    case Unsubscribe(_) =>
    case StopReturns(_, _, _) =>
    case ReleaseReturns(_, _) =>
    case _ =>
  }

  lemma {:induction false} RunKeepsClose(w: World, steps: seq<Step>, c: nat)
    requires Feasible(w, steps) && c < |w.closes|
    ensures |After(w, steps).closes| >= |w.closes| && SameClose(After(w, steps).closes[c], w.closes[c])
    decreases |steps|
  {
    if steps != [] {
      StepKeepsClose(w, steps[0], c);
      RunKeepsClose(Apply(w, steps[0]), steps[1..], c);
    }
  }

  /** The steps of close `c`. */
  predicate StepOf(s: Step, c: nat) {
    (s.StopReturns? || s.ReleaseReturns?) && s.close == c
  }

  /**
   A close in flight is isolated. However long it takes, its entry stays as it was
   detached; its local id never comes back, whatever new entry opens on the same
   key; every live entry has another id and another handle; and its own steps
   change neither table, nor the lock holder, nor any other close.
   */
  lemma ClosesAreIsolated(w: World, steps: seq<Step>, c: nat)
    requires Reachable(w) && Feasible(w, steps) && c < |w.closes|
    ensures
      var v := After(w, steps);
      var d := w.closes[c].entry;
      && c < |v.closes| && SameClose(v.closes[c], w.closes[c])
      && Dead(v, d.subscription.id)
      && (forall k | k in v.entries ::
            v.entries[k].subscription.id != d.subscription.id && v.entries[k].handle != d.handle)
      && (forall s | StepOf(s, c) && Enabled(v, s) ::
            && Apply(v, s).entries == v.entries && Apply(v, s).index == v.index
            && Apply(v, s).opening == v.opening && Apply(v, s).api == v.api
            && |Apply(v, s).closes| == |v.closes|
            && forall i | 0 <= i < |v.closes| && i != c :: Apply(v, s).closes[i] == v.closes[i])
  {
    ReachableGood(w);
    RunGood(w, steps);
    RunKeepsClose(w, steps, c);
    DeadIdsStayDead(w, steps, w.closes[c].entry.subscription.id);
    var v := After(w, steps);
    GoodApart(v);
    forall k | k in v.entries
      ensures v.entries[k].subscription.id != w.closes[c].entry.subscription.id
           && v.entries[k].handle != w.closes[c].entry.handle
    {
      assert EntryOk(v.index, k, v.entries[k]);
    }
    forall s | StepOf(s, c) && Enabled(v, s)
      ensures
        && Apply(v, s).entries == v.entries && Apply(v, s).index == v.index
        && Apply(v, s).opening == v.opening && Apply(v, s).api == v.api
        && |Apply(v, s).closes| == |v.closes|
        && forall i | 0 <= i < |v.closes| && i != c :: Apply(v, s).closes[i] == v.closes[i]
    {
      CloseStepFrame(v, s, c);
    }
  }

  lemma CloseStepFrame(v: World, s: Step, c: nat)
    requires StepOf(s, c) && Enabled(v, s)
    ensures Apply(v, s).entries == v.entries && Apply(v, s).index == v.index
    ensures Apply(v, s).opening == v.opening && Apply(v, s).api == v.api && Apply(v, s).tries == v.tries
    ensures |Apply(v, s).closes| == |v.closes|
    ensures forall i | 0 <= i < |v.closes| && i != c :: Apply(v, s).closes[i] == v.closes[i]
  {
    match s
    case StopReturns(_, _, _) =>
    case ReleaseReturns(_, _) =>
  }

  // ---- Failed opens ----

  /** Every step of the run is taken while the lock is held. */
  ghost predicate WhileLocked(w: World, steps: seq<Step>)
    requires Feasible(w, steps)
    decreases |steps|
  {
    steps == [] || (!w.opening.Idle? && WhileLocked(Apply(w, steps[0]), steps[1..]))
  }

  predicate Succeeds(s: Step) {
    s.TransportReturns? && s.started.Some?
  }

  lemma LockedStepFrame(w: World, s: Step)
    requires Enabled(w, s) && !w.opening.Idle? && !Succeeds(s)
    ensures Apply(w, s).entries == w.entries && Apply(w, s).index == w.index && Apply(w, s).api == w.api
  {
    if s.StopReturns? || s.ReleaseReturns? {
      CloseStepFrame(w, s, s.close);
    } else {
      match s
      case AdapterReturns(_, _) =>
      case TransportReturns(_) =>
      case RollbackReturns =>
    }
  }

  lemma {:induction false} LockedRunFrame(w: World, steps: seq<Step>)
    requires Feasible(w, steps) && WhileLocked(w, steps)
    requires forall i | 0 <= i < |steps| :: !Succeeds(steps[i])
    ensures
      var v := After(w, steps);
      v.entries == w.entries && v.index == w.index && v.api == w.api
    decreases |steps|
  {
    if steps != [] {
      LockedStepFrame(w, steps[0]);
      LockedRunFrame(Apply(w, steps[0]), steps[1..]);
    }
  }

  /**
   An open that fails, at the adapter or at the transport and however other closes
   interleave with it, leaves both tables and every claim as they were before.
   */
  lemma FailedOpenChangesNothing(w: World, req: Request, steps: seq<Step>)
    requires w.opening.Idle? && KeyOf(req) !in w.entries
    requires Feasible(ApplySubscribe(w, req), steps) && WhileLocked(ApplySubscribe(w, req), steps)
    requires forall i | 0 <= i < |steps| :: !Succeeds(steps[i])
    ensures
      var v := After(ApplySubscribe(w, req), steps);
      v.entries == w.entries && v.index == w.index && v.api == w.api
  {
    LockedRunFrame(ApplySubscribe(w, req), steps);
  }
}
