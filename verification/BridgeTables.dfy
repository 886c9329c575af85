/**
 What every step keeps about the two tables and the callers' claims.
 */
module BridgeTables {
  import opened Text
  import opened Bridge

  /** A live entry is stored under its own key and indexed by its local id. */
  ghost predicate EntryOk(index: Index, k: Key, e: Entry) {
    && e.key == k
    && e.state == Active
    && e.refCount >= 1
    && e.subscription.id in index
    && index[e.subscription.id] == k
  }

  /** The index and the entries are exact inverses, and every entry is live. */
  ghost predicate TablesAgree(entries: Entries, index: Index) {
    && (forall k | k in entries :: EntryOk(index, k, entries[k]))
    && (forall id | id in index :: index[id] in entries && entries[index[id]].subscription.id == id)
  }

  lemma RecountKeepsTables(entries: Entries, index: Index, k: Key, n: nat)
    requires TablesAgree(entries, index) && k in entries && n >= 1
    ensures TablesAgree(Recount(entries, k, n), index)
  {
  }

  lemma AdmitKeepsTables(entries: Entries, index: Index, k: Key, e: Entry)
    requires TablesAgree(entries, index) && k !in entries && e.subscription.id !in index
    requires e.key == k && e.state == Active && e.refCount == 1
    ensures TablesAgree(entries[k := e], index[e.subscription.id := k])
  {
  }

  lemma DetachKeepsTables(entries: Entries, index: Index, id: string)
    requires TablesAgree(entries, index) && id in index
    ensures TablesAgree(entries - {index[id]}, index - {id})
  {
  }

  /** The id an open attempt has been given but not yet entered in the tables. */
  ghost predicate Pending(o: Opening, id: string) {
    o.Starting? && o.subscription.id == id
  }

  /** Ids in use were issued; a pending id is in no table; the lock holder's key is free. */
  ghost predicate HolderFresh(o: Opening, entries: Entries, index: Index, issued: set<string>) {
    && index.Keys <= issued
    && (o.Starting? ==> o.subscription.id in issued && o.subscription.id !in index)
    && (o.Asking? || o.Starting? ==> KeyOf(o.req) !in entries)
  }

  /** A closed id is in no table and not pending. */
  ghost predicate ClosedGone(closes: seq<Close>, o: Opening, index: Index, issued: set<string>) {
    forall c | 0 <= c < |closes| ::
      var id := closes[c].entry.subscription.id; id in issued && id !in index && !Pending(o, id)
  }

  /** Ids seen by callers were issued and are not pending. */
  ghost predicate SeenIssued(api: seq<Api>, o: Opening, issued: set<string>) {
    forall i | 0 <= i < |api| && api[i].Subscribed? ::
      api[i].subscription.id in issued && !Pending(o, api[i].subscription.id)
  }

  ghost predicate Sound(w: World) {
    && TablesAgree(w.entries, w.index)
    && HolderFresh(w.opening, w.entries, w.index, w.issued)
    && ClosedGone(w.closes, w.opening, w.index, w.issued)
    && SeenIssued(w.api, w.opening, w.issued)
  }

  lemma SubscribeSound(w: World, req: Request)
    requires Sound(w) && w.opening.Idle?
    ensures Sound(ApplySubscribe(w, req))
  {
    var k := KeyOf(req);
    if k in w.entries {
      RecountKeepsTables(w.entries, w.index, k, w.entries[k].refCount + 1);
    }
  }

  lemma AdapterSound(w: World, grant: Option<Grant>, id: string)
    requires Sound(w) && w.opening.Asking? && (grant.Some? ==> id !in w.issued)
    ensures Sound(ApplyAdapter(w, grant, id))
  {
  }

  lemma TransportSound(w: World, started: Option<Started>)
    requires Sound(w) && w.opening.Starting?
    ensures Sound(ApplyTransport(w, started))
  {
    if started.Some? {
      var o := w.opening;
      var k := KeyOf(o.req);
      AdmitKeepsTables(w.entries, w.index, k, NewEntry(k, o.grant, o.subscription, started.value, o.attempt));
    }
  }

  lemma UnsubscribeSound(w: World, id: string)
    requires Sound(w) && w.opening.Idle?
    ensures Sound(ApplyUnsubscribe(w, id))
  {
    if id in w.index {
      var k := w.index[id];
      if w.entries[k].refCount > 1 {
        RecountKeepsTables(w.entries, w.index, k, w.entries[k].refCount - 1);
      } else {
        DetachKeepsTables(w.entries, w.index, id);
      }
    }
  }

  lemma CloseStepsSound(w: World, c: nat, ok: bool, registered: bool)
    requires Sound(w) && c < |w.closes|
    ensures Sound(ApplyStop(w, c, ok, registered)) && Sound(ApplyRelease(w, c, ok))
  {
  }

  /** The claims the tables hold on a local id. */
  ghost function Held(entries: Entries, index: Index, id: string): nat {
    if id in index && index[id] in entries then entries[index[id]].refCount else 0
  }

  /** The reference count of an entry is the number of claims in the history. */
  ghost predicate ClaimsMatch(w: World) {
    forall id :: Claims(w.api, id) == Held(w.entries, w.index, id)
  }

  lemma ClaimsAppend(api: seq<Api>, a: Api, id: string)
    ensures Claims(api + [a], id) ==
      match a
      case Subscribed(_, s) => Claims(api, id) + (if s.id == id then 1 else 0)
      case Unsubscribed(i) => if i == id && Claims(api, id) > 0 then Claims(api, id) - 1 else Claims(api, id)
  {
    assert (api + [a])[..|api|] == api;
  }

  lemma SubscribeClaims(w: World, req: Request)
    requires Sound(w) && ClaimsMatch(w)
    ensures ClaimsMatch(ApplySubscribe(w, req))
  {
    var k := KeyOf(req);
    if k in w.entries {
      var v := ApplySubscribe(w, req);
      forall id ensures Claims(v.api, id) == Held(v.entries, v.index, id) {
        assert Claims(w.api, id) == Held(w.entries, w.index, id);
        ClaimsAppend(w.api, Subscribed(k, w.entries[k].subscription), id);
      }
    }
  }

  lemma HeldAfterAdmit(entries: Entries, index: Index, k: Key, e: Entry, id: string)
    requires TablesAgree(entries, index) && k !in entries && e.subscription.id !in index && e.refCount == 1
    ensures Held(entries[k := e], index[e.subscription.id := k], id)
         == Held(entries, index, id) + (if id == e.subscription.id then 1 else 0)
  {
  }

  lemma TransportClaims(w: World, started: Option<Started>)
    requires Sound(w) && ClaimsMatch(w) && w.opening.Starting?
    ensures ClaimsMatch(ApplyTransport(w, started))
  {
    if started.Some? {
      var o := w.opening;
      var k := KeyOf(o.req);
      var e := NewEntry(k, o.grant, o.subscription, started.value, o.attempt);
      forall id ensures Claims(w.api + [Subscribed(k, e.subscription)], id)
          == Held(w.entries[k := e], w.index[e.subscription.id := k], id) {
        ClaimsAppend(w.api, Subscribed(k, e.subscription), id);
        HeldAfterAdmit(w.entries, w.index, k, e, id);
      }
    }
  }

  lemma HeldAfterDrop(entries: Entries, index: Index, name: string, id: string)
    requires TablesAgree(entries, index) && name in index
    ensures
      var k := index[name];
      var n := entries[k].refCount;
      var left := if id == name then n - 1 else Held(entries, index, id);
      && (n > 1 ==> Held(Recount(entries, k, n - 1), index, id) == left)
      && (n == 1 ==> Held(entries - {k}, index - {name}, id) == left)
  {
  }

  lemma UnsubscribeClaim(w: World, name: string, id: string)
    requires TablesAgree(w.entries, w.index)
    requires Claims(w.api, id) == Held(w.entries, w.index, id)
    ensures
      var v := ApplyUnsubscribe(w, name);
      Claims(v.api, id) == Held(v.entries, v.index, id)
  {
    ClaimsAppend(w.api, Unsubscribed(name), id);
    if name in w.index {
      HeldAfterDrop(w.entries, w.index, name, id);
    }
  }

  lemma UnsubscribeClaims(w: World, name: string)
    requires Sound(w) && ClaimsMatch(w)
    ensures ClaimsMatch(ApplyUnsubscribe(w, name))
  {
    var v := ApplyUnsubscribe(w, name);
    forall id ensures Claims(v.api, id) == Held(v.entries, v.index, id) {
      UnsubscribeClaim(w, name, id);
    }
  }

  /** What callers were told matches the tables for as long as the id is live. */
  ghost predicate Remembered(api: seq<Api>, entries: Entries, index: Index) {
    && (forall i | 0 <= i < |api| && api[i].Subscribed? && api[i].subscription.id in index ::
          && index[api[i].subscription.id] == api[i].key
          && api[i].key in entries
          && entries[api[i].key].subscription == api[i].subscription)
    && (forall k | k in entries :: Subscribed(k, entries[k].subscription) in api)
  }

  /** Two subscribes of one key return the same value if the first is still held at the second. */
  ghost predicate OverlapsAgree(api: seq<Api>) {
    forall i, j | 0 <= i < j < |api| && api[i].Subscribed? && api[j].Subscribed? && api[i].key == api[j].key
        && Claims(api[..j], api[i].subscription.id) > 0 ::
      api[i].subscription == api[j].subscription
  }

  lemma OverlapsAgreeAppend(api: seq<Api>, a: Api)
    requires OverlapsAgree(api)
    requires a.Subscribed? ==> forall i | 0 <= i < |api| && api[i].Subscribed? && api[i].key == a.key
        && Claims(api, api[i].subscription.id) > 0 :: api[i].subscription == a.subscription
    ensures OverlapsAgree(api + [a])
  {
    var all := api + [a];
    forall i, j | 0 <= i < j < |all| && all[i].Subscribed? && all[j].Subscribed? && all[i].key == all[j].key
        && Claims(all[..j], all[i].subscription.id) > 0
      ensures all[i].subscription == all[j].subscription
    {
      assert all[..j] == api[..j];
      assert all[i] == api[i];
      if j == |api| {
        assert api[..j] == api;
      }
    }
  }

  ghost predicate Consistent(w: World) {
    Sound(w) && ClaimsMatch(w) && Remembered(w.api, w.entries, w.index) && OverlapsAgree(w.api)
  }

  lemma HeldIsRemembered(w: World, i: nat)
    requires Consistent(w) && i < |w.api| && w.api[i].Subscribed?
    ensures Claims(w.api, w.api[i].subscription.id) > 0 ==>
      w.api[i].key in w.entries && w.entries[w.api[i].key].subscription == w.api[i].subscription
  {
    var id := w.api[i].subscription.id;
    assert Claims(w.api, id) == Held(w.entries, w.index, id);
  }

  lemma SubscribeConsistent(w: World, req: Request)
    requires Consistent(w) && w.opening.Idle?
    ensures Consistent(ApplySubscribe(w, req))
  {
    SubscribeSound(w, req);
    SubscribeClaims(w, req);
    var k := KeyOf(req);
    if k in w.entries {
      var a := Subscribed(k, w.entries[k].subscription);
      forall i | 0 <= i < |w.api| && w.api[i].Subscribed? && w.api[i].key == k
          && Claims(w.api, w.api[i].subscription.id) > 0
        ensures w.api[i].subscription == a.subscription
      {
        HeldIsRemembered(w, i);
      }
      OverlapsAgreeAppend(w.api, a);
      var v := ApplySubscribe(w, req);
      assert a in v.api;
      RememberedRecount(w.api, w.entries, w.index, k, w.entries[k].refCount + 1, a);
    }
  }

  lemma RememberedRecount(api: seq<Api>, entries: Entries, index: Index, k: Key, n: nat, a: Api)
    requires TablesAgree(entries, index) && Remembered(api, entries, index) && k in entries
    requires a.Unsubscribed? || a == Subscribed(k, entries[k].subscription)
    ensures Remembered(api + [a], Recount(entries, k, n), index)
  {
  }

  lemma RememberedAdmit(api: seq<Api>, entries: Entries, index: Index, k: Key, e: Entry)
    requires TablesAgree(entries, index) && Remembered(api, entries, index)
    requires k !in entries && e.subscription.id !in index
    requires forall i | 0 <= i < |api| && api[i].Subscribed? :: api[i].subscription.id != e.subscription.id
    ensures Remembered(api + [Subscribed(k, e.subscription)], entries[k := e], index[e.subscription.id := k])
  {
  }

  lemma RememberedDetach(api: seq<Api>, entries: Entries, index: Index, id: string, a: Api)
    requires TablesAgree(entries, index) && Remembered(api, entries, index) && id in index && a.Unsubscribed?
    ensures Remembered(api + [a], entries - {index[id]}, index - {id})
  {
  }

  lemma TransportConsistent(w: World, started: Option<Started>)
    requires Consistent(w) && w.opening.Starting?
    ensures Consistent(ApplyTransport(w, started))
  {
    TransportSound(w, started);
    TransportClaims(w, started);
    if started.Some? {
      var o := w.opening;
      var k := KeyOf(o.req);
      var e := NewEntry(k, o.grant, o.subscription, started.value, o.attempt);
      forall i | 0 <= i < |w.api| && w.api[i].Subscribed? && w.api[i].key == k
        ensures Claims(w.api, w.api[i].subscription.id) == 0
      {
        HeldIsRemembered(w, i);
      }
      OverlapsAgreeAppend(w.api, Subscribed(k, e.subscription));
      RememberedAdmit(w.api, w.entries, w.index, k, e);
    }
  }

  lemma UnsubscribeConsistent(w: World, id: string)
    requires Consistent(w) && w.opening.Idle?
    ensures Consistent(ApplyUnsubscribe(w, id))
  {
    UnsubscribeSound(w, id);
    UnsubscribeClaims(w, id);
    OverlapsAgreeAppend(w.api, Unsubscribed(id));
    if id in w.index {
      var k := w.index[id];
      if w.entries[k].refCount > 1 {
        RememberedRecount(w.api, w.entries, w.index, k, w.entries[k].refCount - 1, Unsubscribed(id));
      } else {
        RememberedDetach(w.api, w.entries, w.index, id, Unsubscribed(id));
      }
    }
  }

  lemma StepConsistent(w: World, s: Step)
    requires Consistent(w) && Enabled(w, s)
    ensures Consistent(Apply(w, s))
  {
    match s
    case Subscribe(req) => SubscribeConsistent(w, req);
    case AdapterReturns(grant, id) => AdapterSound(w, grant, id);
    case TransportReturns(started) => TransportConsistent(w, started);
    case RollbackReturns =>
    case Unsubscribe(id) => UnsubscribeConsistent(w, id);
    case StopReturns(c, ok, registered) => CloseStepsSound(w, c, ok, registered);
    case ReleaseReturns(c, ok) => CloseStepsSound(w, c, ok, true);
  }
}
