/**
 Where every value in the bridge comes from: what a transport is asked for, what
 callers are told and what a release names, all from the request, the adapter's
 grant and the transport's answer.
 */
module BridgeAnswers {
  import opened Text
  import opened Bridge
  import opened BridgeTables
  import opened BridgeHandles

  // ---- What every step keeps ----

  /** What a transport is asked for comes from the request and the grant, but for the local id. */
  ghost predicate RequestsMade(path: Encoder, t: Attempts) {
    forall a | a in t.requested ::
      && a in t.asked && a in t.granted
      && var s := Localise(path, t.asked[a], t.granted[a], t.requested[a].subscription.id);
      t.requested[a] == StartFor(KeyOf(t.asked[a]), t.granted[a], s)
  }

  lemma SubscribeRequests(w: World, req: Request)
    requires RequestsMade(w.path, w.tries) && AttemptsBounded(w.opening, w.tries)
    ensures RequestsMade(w.path, ApplySubscribe(w, req).tries)
  {
    hide Localise, StartFor;
  }

  lemma AdapterRequests(w: World, grant: Option<Grant>, id: string)
    requires RequestsMade(w.path, w.tries) && AttemptsBounded(w.opening, w.tries) && w.opening.Asking?
    ensures RequestsMade(w.path, ApplyAdapter(w, grant, id).tries)
  {
    if grant.Some? {
      var t, a := ApplyAdapter(w, grant, id).tries, w.opening.attempt;
      var s := Localise(w.path, w.opening.req, grant.value, id);
      assert s.id == id && StartFor(KeyOf(w.opening.req), grant.value, s).subscription == s;
      hide Localise, StartFor, KeyOf;
      forall b | b in t.requested && b != a ensures b in w.tries.requested && t.requested[b] == w.tries.requested[b] {
      }
    }
  }

  lemma StepRequests(w: World, s: Step)
    requires RequestsMade(w.path, w.tries) && AttemptsBounded(w.opening, w.tries) && Enabled(w, s)
    ensures RequestsMade(Apply(w, s).path, Apply(w, s).tries)
  {
    hide Localise, StartFor, KeyOf, AttemptsBounded;
    match s
    case Subscribe(req) => SubscribeRequests(w, req);
    case AdapterReturns(grant, id) => AdapterRequests(w, grant, id);
    case TransportReturns(_) =>
    case RollbackReturns =>
    case Unsubscribe(_) =>
    case StopReturns(_, _, _) =>
    case ReleaseReturns(_, _) =>
  }

  /** The subscription of attempt `h`, as its callers see it. */
  ghost predicate OpenedBy(t: Attempts, h: nat, k: Key, s: Subscription) {
    h in t.requested && h in t.started && t.requested[h].key == k
    && s == Refresh(t.requested[h].subscription, t.started[h])
  }

  /** Everything callers were ever told was opened by some attempt. */
  ghost predicate AllTold(api: seq<Api>, t: Attempts) {
    forall i | 0 <= i < |api| && api[i].Subscribed? :: exists h :: OpenedBy(t, h, api[i].key, api[i].subscription)
  }

  lemma ToldExtends(api: seq<Api>, t: Attempts, u: Attempts)
    requires AllTold(api, t) && Extends(t, u)
    ensures AllTold(api, u)
  {
    forall i | 0 <= i < |api| && api[i].Subscribed?
      ensures exists h :: OpenedBy(u, h, api[i].key, api[i].subscription)
    {
      var h :| OpenedBy(t, h, api[i].key, api[i].subscription);
      assert OpenedBy(u, h, api[i].key, api[i].subscription);
    }
  }

  lemma ToldAppend(api: seq<Api>, a: Api, t: Attempts, h: nat)
    requires AllTold(api, t) && (a.Subscribed? ==> OpenedBy(t, h, a.key, a.subscription))
    ensures AllTold(api + [a], t)
  {
  }

  lemma TracedIsOpened(e: Entry, t: Attempts)
    requires Traced(e, t)
    ensures OpenedBy(t, e.handle, e.key, e.subscription)
  {
  }

  lemma HitTold(w: World, k: Key)
    requires AllTold(w.api, w.tries) && k in w.entries && w.entries[k].key == k && Traced(w.entries[k], w.tries)
    ensures AllTold(Hit(w, k).api, Hit(w, k).tries)
  {
    TracedIsOpened(w.entries[k], w.tries);
    ToldAppend(w.api, Subscribed(k, w.entries[k].subscription), w.tries, w.entries[k].handle);
  }

  lemma TransportExtends(w: World, started: Option<Started>)
    requires AttemptsBounded(w.opening, w.tries) && w.opening.Starting?
    ensures Extends(w.tries, ApplyTransport(w, started).tries)
  {
    var t, a, u := w.tries, w.opening.attempt, ApplyTransport(w, started).tries;
    assert a !in t.started;
    hide AttemptsBounded;
    assert u == if started.Some? then t.(started := t.started[a := started.value]) else t.(failed := t.failed + {a});
    hide ApplyTransport;
  }

  lemma OpenIsTold(w: World, answer: Started)
    requires AttemptsBounded(w.opening, w.tries) && w.opening.Starting?
    ensures
      var o, v := w.opening, ApplyTransport(w, Some(answer));
      var e := NewEntry(KeyOf(o.req), o.grant, o.subscription, answer, o.attempt);
      OpenedBy(v.tries, e.handle, e.key, e.subscription) && v.api == w.api + [Subscribed(e.key, e.subscription)]
  {
    hide OpenedBy, Traced, AttemptsBounded;
    var o, v := w.opening, ApplyTransport(w, Some(answer));
    NewEntryTraced(o, w.tries, answer);
    TracedIsOpened(NewEntry(KeyOf(o.req), o.grant, o.subscription, answer, o.attempt), v.tries);
  }

  lemma TransportTold(w: World, started: Option<Started>)
    requires AllTold(w.api, w.tries) && AttemptsBounded(w.opening, w.tries) && w.opening.Starting?
    ensures AllTold(ApplyTransport(w, started).api, ApplyTransport(w, started).tries)
  {
    var o, v := w.opening, ApplyTransport(w, started);
    assert started.None? ==> v.api == w.api;
    hide AllTold, OpenedBy, AttemptsBounded, ApplyTransport, Extends;
    TransportExtends(w, started);
    ToldExtends(w.api, w.tries, v.tries);
    if started.Some? {
      OpenIsTold(w, started.value);
      var e := NewEntry(KeyOf(o.req), o.grant, o.subscription, started.value, o.attempt);
      ToldAppend(w.api, Subscribed(e.key, e.subscription), v.tries, e.handle);
    }
  }

  lemma SubscribeTold(w: World, req: Request)
    requires AllTold(w.api, w.tries) && TablesAgree(w.entries, w.index)
    requires AttemptsBounded(w.opening, w.tries) && AllTraced(w.entries, w.closes, w.tries)
    ensures AllTold(ApplySubscribe(w, req).api, ApplySubscribe(w, req).tries)
  {
    hide AllTold, Traced;
    if KeyOf(req) in w.entries {
      assert EntryOk(w.index, KeyOf(req), w.entries[KeyOf(req)]);
      HitTold(w, KeyOf(req));
    } else {
      ToldExtends(w.api, w.tries, ApplySubscribe(w, req).tries);
    }
  }

  lemma AdapterTold(w: World, grant: Option<Grant>, id: string)
    requires AllTold(w.api, w.tries) && AttemptsBounded(w.opening, w.tries) && w.opening.Asking?
    ensures AllTold(w.api, ApplyAdapter(w, grant, id).tries)
  {
    hide AllTold;
    ToldExtends(w.api, w.tries, ApplyAdapter(w, grant, id).tries);
  }

  lemma StepTold(w: World, s: Step)
    requires AllTold(w.api, w.tries) && Enabled(w, s) && TablesAgree(w.entries, w.index)
    requires AttemptsBounded(w.opening, w.tries) && AllTraced(w.entries, w.closes, w.tries)
    ensures AllTold(Apply(w, s).api, Apply(w, s).tries)
  {
    hide AllTold, Traced;
    match s
    case Subscribe(req) => SubscribeTold(w, req);
    case AdapterReturns(grant, id) => AdapterTold(w, grant, id);
    case TransportReturns(started) => TransportTold(w, started);
    case RollbackReturns =>
    case Unsubscribe(id) => ToldAppend(w.api, Unsubscribed(id), w.tries, 0);
    case StopReturns(_, _, _) =>
    case ReleaseReturns(_, _) =>
  }

  // ---- The values, spelled out ----

  ghost predicate Finished(t: Attempts, h: nat) {
    h in t.asked && h in t.granted && h in t.started
  }

  /** The update, where there is one, else what there was. */
  ghost predicate Updated(now: Option<string>, base: Option<string>, update: Option<string>) {
    (update.Some? ==> now == update) && (update.None? ==> now == base)
  }

  /** The key is that of the request, component by component. */
  ghost predicate KeyFrom(k: Key, q: Request) {
    k.adapterId == q.adapter && k.obj == q.obj && k.event == q.event && k.filterHash == q.filterHash
  }

  /**
   A subscription as callers see it: object and event from the grant, the path they
   are published on from the encoder, the route from the request, and the rest from
   the transport where it answered, else from the grant.
   */
  ghost predicate SubscriptionFrom(path: Encoder, s: Subscription, q: Request, g: Grant, a: Started) {
    && s.obj == g.subscription.obj && s.event == g.subscription.event
    && s.pattern == path(g.subscription.obj, g.subscription.event)
    && s.route == q.route
    && Updated(s.objectDid, g.subscription.objectDid, a.objectDid)
    && Updated(s.expiresAt, g.subscription.expiresAt, a.expiresAt)
    && Updated(s.cursor, g.subscription.cursor, a.cursor)
  }

  /** The remote id is the transport's where it supplied one, else the adapter's. */
  ghost predicate RemoteFrom(id: string, g: Grant, a: Started) {
    (a.remoteId.Some? ==> id == a.remoteId.value) && (a.remoteId.None? ==> id == g.subscription.id)
  }

  /** Key, subscription and remote id are those that attempt `h` came to. */
  ghost predicate ValuesFrom(w: World, h: nat, k: Key, s: Subscription) {
    && Finished(w.tries, h)
    && KeyFrom(k, w.tries.asked[h])
    && SubscriptionFrom(w.path, s, w.tries.asked[h], w.tries.granted[h], w.tries.started[h])
  }

  lemma OpenedValues(w: World, h: nat, k: Key, s: Subscription)
    requires RequestsMade(w.path, w.tries) && OpenedBy(w.tries, h, k, s)
    ensures ValuesFrom(w, h, k, s)
  {
  }

  lemma EntryValues(w: World, e: Entry)
    requires RequestsMade(w.path, w.tries) && Traced(e, w.tries)
    ensures ValuesFrom(w, e.handle, e.key, e.subscription)
    ensures RemoteFrom(e.remoteId, w.tries.granted[e.handle], w.tries.started[e.handle])
    ensures e.viaAdapter == w.tries.granted[e.handle].viaAdapter
  {
    TracedIsOpened(e, w.tries);
    OpenedValues(w, e.handle, e.key, e.subscription);
  }
}
