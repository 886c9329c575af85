/**
 `EventBridgeManager` as the object it is: two tables updated in place. Each
 method is proved to perform exactly the protocol steps that its call stands for
 when nothing interleaves; the interleavings are the protocol's business.
 */
module BridgeManager {
  import opened Text
  import opened Bridge

  /** The steps of one `subscribe` call, given the answers it meets. */
  function SubscribeSteps(hit: bool, req: Request, grant: Option<Grant>, freshId: string,
                          started: Option<Started>): seq<Step>
  {
    if hit then [Subscribe(req)]
    else if grant.None? then [Subscribe(req), AdapterReturns(None, freshId)]
    else if started.None? && grant.value.viaAdapter then
      [Subscribe(req), AdapterReturns(grant, freshId), TransportReturns(None), RollbackReturns]
    else
      [Subscribe(req), AdapterReturns(grant, freshId), TransportReturns(started)]
  }

  /** The steps of one `unsubscribe` call that detaches close `c`. */
  function CloseSteps(id: string, c: nat, viaAdapter: bool, stopOk: bool, registered: bool,
                      releaseOk: bool): seq<Step>
  {
    if stopOk && viaAdapter && registered then
      [Unsubscribe(id), StopReturns(c, stopOk, registered), ReleaseReturns(c, releaseOk)]
    else
      [Unsubscribe(id), StopReturns(c, stopOk, registered)]
  }

  lemma AfterCons(w: World, s: Step, rest: seq<Step>)
    requires Enabled(w, s) && Feasible(Apply(w, s), rest)
    ensures Feasible(w, [s] + rest) && After(w, [s] + rest) == After(Apply(w, s), rest)
  {
    assert ([s] + rest)[1..] == rest;
  }

  lemma AfterTwo(w: World, a: Step, b: Step)
    requires Enabled(w, a) && Enabled(Apply(w, a), b)
    ensures Feasible(w, [a, b]) && After(w, [a, b]) == Apply(Apply(w, a), b)
  {
    AfterCons(Apply(w, a), b, []);
    AfterCons(w, a, [b]);
    assert [a] + [b] == [a, b];
  }

  lemma AfterThree(w: World, a: Step, b: Step, c: Step)
    requires Enabled(w, a) && Enabled(Apply(w, a), b) && Enabled(Apply(Apply(w, a), b), c)
    ensures Feasible(w, [a, b, c]) && After(w, [a, b, c]) == Apply(Apply(Apply(w, a), b), c)
  {
    AfterTwo(Apply(w, a), b, c);
    AfterCons(w, a, [b, c]);
    assert [a] + [b, c] == [a, b, c];
  }

  lemma AfterFour(w: World, a: Step, b: Step, c: Step, d: Step)
    requires Enabled(w, a) && Enabled(Apply(w, a), b) && Enabled(Apply(Apply(w, a), b), c)
    requires Enabled(Apply(Apply(Apply(w, a), b), c), d)
    ensures Feasible(w, [a, b, c, d]) && After(w, [a, b, c, d]) == Apply(Apply(Apply(Apply(w, a), b), c), d)
  {
    AfterThree(Apply(w, a), b, c, d);
    AfterCons(w, a, [b, c, d]);
    assert [a] + [b, c, d] == [a, b, c, d];
  }

  class EventBridgeManager {
    var entries: Entries
    var index: Index

    constructor ()
      ensures entries == map[] && index == map[]
    {
      entries := map[];
      index := map[];
    }

    /** The tables of this manager are those of the protocol state. */
    ghost predicate Mirrors(w: World)
      reads this
    {
      entries == w.entries && index == w.index && w.opening.Idle?
    }

    /**
     `subscribe`: `grant` is what the adapter answers if it is asked, `started`
     what the transport answers if it is started, `attempt` names the handle.
     */
    method SubscribeEvent(path: Encoder, req: Request, grant: Option<Grant>, freshId: string,
                          started: Option<Started>, attempt: nat, ghost w: World)
      returns (result: Option<Subscription>, calls: seq<Call>)
      requires Mirrors(w) && w.path == path && w.tries.next == attempt && freshId !in w.issued
      modifies this
      ensures
        var steps := SubscribeSteps(KeyOf(req) in w.entries, req, grant, freshId, started);
        && Feasible(w, steps)
        && Mirrors(After(w, steps))
        && After(w, steps).calls == w.calls + calls
        && After(w, steps).api == w.api + (if result.Some? then [Subscribed(KeyOf(req), result.value)] else [])
    {
      var key := KeyOf(req);
      calls := [];
      if key in entries {
        var entry := entries[key];
        entries := Recount(entries, key, entry.refCount + 1);
        AfterCons(w, Subscribe(req), []);
        return Some(entry.subscription), calls;
      }
      if grant.None? {
        AfterTwo(w, Subscribe(req), AdapterReturns(None, freshId));
        return None, calls;
      }
      var remoteId := grant.value.subscription.id;
      var subscription := Localise(path, req, grant.value, freshId);
      if started.None? {
        if grant.value.viaAdapter {
          calls := [RollbackRelease(attempt, remoteId)];
          AfterFour(w, Subscribe(req), AdapterReturns(grant, freshId), TransportReturns(None), RollbackReturns);
        } else {
          AfterThree(w, Subscribe(req), AdapterReturns(grant, freshId), TransportReturns(None));
        }
        return None, calls;
      }
      remoteId := if started.value.remoteId.Some? then started.value.remoteId.value else remoteId;
      subscription := Refresh(subscription, started.value);
      index := index[subscription.id := key];
      entries := entries[key := Entry(key, Active, 1, subscription, remoteId, attempt, grant.value.viaAdapter)];
      AfterThree(w, Subscribe(req), AdapterReturns(grant, freshId), TransportReturns(started));
      return Some(subscription), calls;
    }

    /** The locked half of `unsubscribe`: the entry to close, if the last claim went. */
    method Detach(id: string) returns (closing: Option<Entry>)
      modifies this
      ensures id !in old(index) ==> closing.None? && entries == old(entries) && index == old(index)
      ensures id in old(index) && old(index[id]) !in old(entries) ==>
        closing.None? && entries == old(entries) && index == old(index) - {id}
      ensures id in old(index) && old(index[id]) in old(entries) ==>
        var k := old(index[id]);
        var e := old(entries)[k];
        if e.refCount > 1 then
          closing.None? && index == old(index) && entries == Recount(old(entries), k, e.refCount - 1)
        else
          closing == Some(e.(state := Closing)) && index == old(index) - {id} && entries == old(entries) - {k}
    {
      if id !in index {
        return None;
      }
      var key := index[id];
      if key !in entries {
        index := index - {id};
        return None;
      }
      var entry := entries[key];
      if entry.refCount > 1 {
        entries := Recount(entries, key, entry.refCount - 1);
        return None;
      }
      index := index - {id};
      entries := entries - {key};
      return Some(entry.(state := Closing));
    }

    /** `unsubscribe`, with the answers that its close meets; `ok` is false for an error result. */
    method UnsubscribeEvent(id: string, stopOk: bool, registered: bool, releaseOk: bool, ghost w: World)
      returns (ok: bool, calls: seq<Call>, ghost steps: seq<Step>)
      requires Mirrors(w)
      modifies this
      ensures steps == [Unsubscribe(id)] ||
        exists viaAdapter :: steps == CloseSteps(id, |w.closes|, viaAdapter, stopOk, registered, releaseOk)
      ensures Feasible(w, steps) && Mirrors(After(w, steps)) && After(w, steps).calls == w.calls + calls
      ensures After(w, steps).api == w.api + [Unsubscribed(id)]
      ensures ok <==> (forall c | |w.closes| <= c < |After(w, steps).closes| ::
        After(w, steps).closes[c].progress.Released? || After(w, steps).closes[c].progress.NothingToRelease?)
      ensures forall c | |w.closes| <= c < |After(w, steps).closes| ::
        !After(w, steps).closes[c].progress.Stopping? && !After(w, steps).closes[c].progress.Releasing?
    {
      calls := [];
      steps := [Unsubscribe(id)];
      ghost var c := |w.closes|;
      AfterCons(w, Unsubscribe(id), []);
      assert [Unsubscribe(id)] + [] == steps;
      var closing := Detach(id);
      if closing.None? {
        return true, calls, steps;
      }
      var entry := closing.value;
      steps := CloseSteps(id, c, entry.viaAdapter, stopOk, registered, releaseOk);
      calls := [StopCall(entry.handle)];
      if !stopOk {
        calls := calls + [StopErr(entry.handle)];
        AfterTwo(w, Unsubscribe(id), StopReturns(c, stopOk, registered));
        assert After(w, steps).closes[c].progress.StopFailed?;
        return false, calls, steps;
      }
      calls := calls + [StopOk(entry.handle)];
      entry := entry.(state := Closed);
      if !entry.viaAdapter || !registered {
        AfterTwo(w, Unsubscribe(id), StopReturns(c, stopOk, registered));
        assert After(w, steps).closes[c].progress == (if entry.viaAdapter then AdapterMissing else NothingToRelease);
        return !entry.viaAdapter, calls, steps;
      }
      calls := calls + [CloseRelease(entry.handle, entry.subscription.route.adapter, entry.remoteId)];
      AfterThree(w, Unsubscribe(id), StopReturns(c, stopOk, registered), ReleaseReturns(c, releaseOk));
      assert After(w, steps).closes[c].progress == (if releaseOk then Released else ReleaseFailed);
      return releaseOk, calls, steps;
    }
  }
}
