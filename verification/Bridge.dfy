/**
 The event bridge manager of event_bridge.rs as a step protocol.

 One remote subscription per key is shared by many local claims. `subscribe`
 holds the table lock across the adapter call and the transport start;
 `unsubscribe` detaches the entry under the lock and finishes the close with the
 lock released, so the steps of old closes interleave with everything else.
 The adapter and the transport are an environment that may answer either way.
 */
module Bridge {
  import opened Text

  datatype Key = Key(adapterId: string, obj: string, event: string, filterHash: string)

  datatype BridgeState = Connecting | Subscribing | Active | Renewing | Closing | Closed | Failed

  datatype RouteTrace = RouteTrace(routeId: string, adapter: string, operation: string)

  datatype Subscription = Subscription(
    id: string, obj: string, objectDid: Option<string>, event: string, pattern: string,
    expiresAt: Option<string>, cursor: Option<string>, route: RouteTrace)

  /** A subscribe request; `filterHash` is the hash of its JSON filter. */
  datatype Request = Request(adapter: string, obj: string, event: string, filterHash: string, route: RouteTrace)

  /** The adapter's answer: the subscription under the adapter's own remote id. */
  datatype Grant = Grant(subscription: Subscription, viaAdapter: bool)

  /** The transport's answer. */
  datatype Started = Started(
    remoteId: Option<string>, objectDid: Option<string>, expiresAt: Option<string>, cursor: Option<string>)

  datatype Sink = Sink(key: Key, pattern: string, localId: string)

  datatype StartRequest = StartRequest(key: Key, subscription: Subscription, remoteId: string, sink: Sink)

  /** `handle` names the transport handle by the open attempt that produced it. */
  datatype Entry = Entry(
    key: Key, state: BridgeState, refCount: nat, subscription: Subscription,
    remoteId: string, handle: nat, viaAdapter: bool)

  type Entries = map<Key, Entry>
  type Index = map<string, Key>

  /** Maps an object and an event to the event path published on. */
  type Encoder = (string, string) -> string

  function KeyOf(req: Request): Key {
    Key(req.adapter, req.obj, req.event, req.filterHash)
  }

  /** The subscription under its local id, event path and route. */
  function Localise(path: Encoder, req: Request, grant: Grant, id: string): Subscription {
    var s := grant.subscription;
    s.(id := id, pattern := path(s.obj, s.event), route := req.route)
  }

  function Override(base: Option<string>, update: Option<string>): Option<string> {
    if update.Some? then update else base
  }

  /** The transport may supply the object DID, the expiry and the cursor. */
  function Refresh(s: Subscription, started: Started): Subscription {
    s.(objectDid := Override(s.objectDid, started.objectDid),
       expiresAt := Override(s.expiresAt, started.expiresAt),
       cursor := Override(s.cursor, started.cursor))
  }

  function RemoteId(grant: Grant, started: Started): string {
    if started.remoteId.Some? then started.remoteId.value else grant.subscription.id
  }

  function StartFor(key: Key, grant: Grant, s: Subscription): StartRequest {
    StartRequest(key, s, grant.subscription.id, Sink(key, s.pattern, s.id))
  }

  function NewEntry(key: Key, grant: Grant, s: Subscription, started: Started, handle: nat): Entry {
    Entry(key, Active, 1, Refresh(s, started), RemoteId(grant, started), handle, grant.viaAdapter)
  }

  /** What the holder of the table lock is waiting for. */
  datatype Opening =
    | Idle
    | Asking(req: Request, attempt: nat)
    | Starting(req: Request, attempt: nat, grant: Grant, subscription: Subscription)
    | RollingBack(attempt: nat)

  /** Where the close of a detached entry stands. */
  datatype Progress = Stopping | StopFailed | Releasing | Released | ReleaseFailed | AdapterMissing | NothingToRelease

  datatype Close = Close(entry: Entry, progress: Progress)

  /** The outcomes that callers of the manager see, in the order they take effect. */
  datatype Api = Subscribed(key: Key, subscription: Subscription) | Unsubscribed(id: string)

  /** The calls that matter to the environment, and the answers to `stop`. */
  datatype Call =
    | StopCall(handle: nat)
    | StopOk(handle: nat)
    | StopErr(handle: nat)
    | CloseRelease(handle: nat, adapter: string, remoteId: string)
    | RollbackRelease(handle: nat, remoteId: string)

  /** What each open attempt was for, was granted by the adapter, asked of the transport, and answered. */
  datatype Attempts = Attempts(
    next: nat,
    asked: map<nat, Request>,
    granted: map<nat, Grant>,
    requested: map<nat, StartRequest>,
    started: map<nat, Started>,
    failed: set<nat>)

  /**
   The event path encoder, the tables, the lock holder and the closes in flight;
   then the history: local ids handed out, the open attempts, the outcomes seen
   by callers and the calls made to the environment.
   */
  datatype World = World(
    path: Encoder,
    entries: Entries,
    index: Index,
    opening: Opening,
    closes: seq<Close>,
    issued: set<string>,
    tries: Attempts,
    api: seq<Api>,
    calls: seq<Call>)

  function Fresh(path: Encoder): World {
    World(path, map[], map[], Idle, [], {}, Attempts(0, map[], map[], map[], map[], {}), [], [])
  }

  datatype Step =
    | Subscribe(req: Request)
    | AdapterReturns(grant: Option<Grant>, freshId: string)
    | TransportReturns(started: Option<Started>)
    | RollbackReturns
    | Unsubscribe(id: string)
    | StopReturns(close: nat, ok: bool, registered: bool)
    | ReleaseReturns(close: nat, ok: bool)

  /** A local id is fresh over the whole history; the lock admits one holder. */
  predicate Enabled(w: World, s: Step) {
    match s
    case Subscribe(_) => w.opening.Idle?
    case AdapterReturns(grant, id) => w.opening.Asking? && (grant.Some? ==> id !in w.issued)
    case TransportReturns(_) => w.opening.Starting?
    case RollbackReturns => w.opening.RollingBack?
    case Unsubscribe(_) => w.opening.Idle?
    case StopReturns(c, _, _) => c < |w.closes| && w.closes[c].progress.Stopping?
    case ReleaseReturns(c, _) => c < |w.closes| && w.closes[c].progress.Releasing?
  }

  function Recount(entries: Entries, k: Key, n: nat): Entries
    requires k in entries
  {
    entries[k := entries[k].(refCount := n)]
  }

  /** The hit path: one more claim on a live entry. */
  function Hit(w: World, k: Key): World
    requires k in w.entries
  {
    var e := w.entries[k];
    w.(entries := Recount(w.entries, k, e.refCount + 1),
       api := w.api + [Subscribed(k, e.subscription)])
  }

  /** Without a live entry the lock holder asks the adapter. */
  function ApplySubscribe(w: World, req: Request): World {
    if KeyOf(req) in w.entries then Hit(w, KeyOf(req))
    else
      var a := w.tries.next;
      w.(opening := Asking(req, a), tries := w.tries.(next := a + 1, asked := w.tries.asked[a := req]))
  }

  function ApplyAdapter(w: World, grant: Option<Grant>, id: string): World
    requires w.opening.Asking?
  {
    var Asking(req, a) := w.opening;
    match grant
    case None => w.(opening := Idle)
    case Some(g) =>
      var s := Localise(w.path, req, g, id);
      w.(opening := Starting(req, a, g, s),
         issued := w.issued + {id},
         tries := w.tries.(granted := w.tries.granted[a := g],
                           requested := w.tries.requested[a := StartFor(KeyOf(req), g, s)]))
  }

  /** The open path's last act: both tables learn about the new entry. */
  function Admit(w: World, e: Entry, answer: Started): World {
    w.(opening := Idle,
       index := w.index[e.subscription.id := e.key],
       entries := w.entries[e.key := e],
       tries := w.tries.(started := w.tries.started[e.handle := answer]),
       api := w.api + [Subscribed(e.key, e.subscription)])
  }

  function ApplyTransport(w: World, started: Option<Started>): World
    requires w.opening.Starting?
  {
    var Starting(req, a, g, s) := w.opening;
    match started
    case None =>
      var v := w.(tries := w.tries.(failed := w.tries.failed + {a}));
      if g.viaAdapter then
        v.(opening := RollingBack(a), calls := w.calls + [RollbackRelease(a, g.subscription.id)])
      else
        v.(opening := Idle)
    case Some(answer) => Admit(w, NewEntry(KeyOf(req), g, s, answer, a), answer)
  }

  /** The locked half of `unsubscribe`, down to the call of `stop`. */
  function ApplyUnsubscribe(w: World, id: string): World {
    var v := w.(api := w.api + [Unsubscribed(id)]);
    if id !in w.index then v
    else
      var k := w.index[id];
      if k !in w.entries then v.(index := w.index - {id})
      else
        var e := w.entries[k];
        if e.refCount > 1 then
          v.(entries := Recount(w.entries, k, e.refCount - 1))
        else
          v.(index := w.index - {id},
             entries := w.entries - {k},
             closes := w.closes + [Close(e.(state := Closing), Stopping)],
             calls := w.calls + [StopCall(e.handle)])
  }

  /** After a good stop: what the close does next, and the call it makes. */
  function AfterStop(e: Entry, registered: bool): (Progress, seq<Call>) {
    if !e.viaAdapter then (NothingToRelease, [])
    else if !registered then (AdapterMissing, [])
    else (Releasing, [CloseRelease(e.handle, e.subscription.route.adapter, e.remoteId)])
  }

  function ApplyStop(w: World, c: nat, ok: bool, registered: bool): World
    requires c < |w.closes|
  {
    var e := w.closes[c].entry;
    if !ok then
      w.(closes := w.closes[c := Close(e, StopFailed)], calls := w.calls + [StopErr(e.handle)])
    else
      var (progress, more) := AfterStop(e, registered);
      w.(closes := w.closes[c := Close(e.(state := Closed), progress)],
         calls := w.calls + [StopOk(e.handle)] + more)
  }

  function ApplyRelease(w: World, c: nat, ok: bool): World
    requires c < |w.closes|
  {
    w.(closes := w.closes[c := Close(w.closes[c].entry, if ok then Released else ReleaseFailed)])
  }

  function Apply(w: World, s: Step): World
    requires Enabled(w, s)
  {
    match s
    case Subscribe(req) => ApplySubscribe(w, req)
    case AdapterReturns(grant, id) => ApplyAdapter(w, grant, id)
    case TransportReturns(started) => ApplyTransport(w, started)
    case RollbackReturns => w.(opening := Idle)
    case Unsubscribe(id) => ApplyUnsubscribe(w, id)
    case StopReturns(c, ok, registered) => ApplyStop(w, c, ok, registered)
    case ReleaseReturns(c, ok) => ApplyRelease(w, c, ok)
  }

  /** Every step of the run is enabled when it is taken. */
  predicate Feasible(w: World, steps: seq<Step>)
    decreases |steps|
  {
    steps == [] || (Enabled(w, steps[0]) && Feasible(Apply(w, steps[0]), steps[1..]))
  }

  function After(w: World, steps: seq<Step>): World
    requires Feasible(w, steps)
    decreases |steps|
  {
    if steps == [] then w else After(Apply(w, steps[0]), steps[1..])
  }

  // ---- Reference definitions, over the history alone ----

  /** Claims on a local id: one per successful subscribe, one less per unsubscribe. */
  function Claims(api: seq<Api>, id: string): nat {
    if api == [] then 0
    else
      var n := Claims(api[..|api| - 1], id);
      match api[|api| - 1]
      case Subscribed(_, s) => if s.id == id then n + 1 else n
      case Unsubscribed(i) => if i == id && n > 0 then n - 1 else n
  }

  /** The keys for which some caller still holds a claim. */
  ghost function LiveKeys(api: seq<Api>): set<Key> {
    set i | 0 <= i < |api| && api[i].Subscribed? && Claims(api, api[i].subscription.id) > 0 :: api[i].key
  }

  datatype Kind = Stops | Releases | Rollbacks

  predicate Counts(c: Call, kind: Kind, handle: nat) {
    match kind
    case Stops => c.StopCall? && c.handle == handle
    case Releases => c.CloseRelease? && c.handle == handle
    case Rollbacks => c.RollbackRelease? && c.handle == handle
  }

  /** How many calls of a kind were made for an open attempt. */
  function Tally(calls: seq<Call>, kind: Kind, handle: nat): nat {
    if calls == [] then 0
    else Tally(calls[..|calls| - 1], kind, handle) + (if Counts(calls[|calls| - 1], kind, handle) then 1 else 0)
  }

  /** `active_count` */
  function ActiveCount(w: World): nat { |w.entries| }

  datatype Snapshot = Snapshot(
    key: Key, state: BridgeState, refCount: nat, subscription: Subscription, remoteId: string)

  /** `snapshot` */
  function SnapshotOf(w: World, k: Key): Option<Snapshot> {
    if k !in w.entries then None
    else
      var e := w.entries[k];
      Some(Snapshot(e.key, e.state, e.refCount, e.subscription, e.remoteId))
  }
}
