/** The asynchronous loader as a state machine. Each step is one critical section, one queue
    get or one settled future; callers and workers interleave in any order. `B` is the type
    of a bundle's bytes, `E` that of a reader's error. */
module AsyncLoader {
  import L = LruPolicy

  datatype Option<+T> = None | Some(value: T)
  datatype Result<+B, +E> = Ok(bytes: B) | Failed(error: E) | ClosedError

  datatype Origin = OnDemand | Prefetch | Predictive
  datatype Future<+B, +E> = Pending | Settled(result: Result<B, E>)

  /** A load request, with the number of times a worker has read for it. */
  datatype Request<+B, +E> = Request(key: L.Key, origin: Origin, future: Future<B, E>, timesRead: nat)

  /** A queue item: work for a request, or a stop token. */
  datatype Item = Item(priority: nat, sequence: nat, work: Option<nat>)

  datatype Worker = Idle | Reading(id: nat) | Exited
  datatype Demander = Waiting(key: L.Key, id: nat) | Direct(key: L.Key)
  datatype Return<+B, +E> = Return(key: L.Key, result: Result<B, E>)

  datatype State<+B, +E> = State(
    maxInflight: nat,
    table: seq<Request<B, E>>,       // every request ever made; its index is its identity
    registry: map<L.Key, nat>,       // the requests that calls may still coalesce with
    queue: set<Item>,
    sequence: nat,
    workers: seq<Worker>,
    demanders: map<nat, Demander>,   // threads inside `demand`
    closed: bool,
    returned: seq<Return<B, E>>)     // what `demand` calls have returned

  const STOP_PRIORITY := 2

  datatype Step<+E> =
    | PrefetchCall(key: L.Key, origin: Origin)
    | DemandCall(thread: nat, demanded: L.Key)
    | DemandReturn(thread: nat)
    | DirectRead(thread: nat, error: Option<E>)
    | Take(worker: nat, item: Item)
    | Settle(worker: nat, error: Option<E>)
    | Close

  function Init<B, E>(workers: nat, maxInflight: nat): State<B, E> {
    State(maxInflight, [], map[], {}, 0, seq(workers, _ => Idle), map[], false, [])
  }

  /** The order of the priority queue. */
  predicate Before(a: Item, b: Item) {
    a.priority < b.priority || (a.priority == b.priority && a.sequence < b.sequence)
  }

  predicate IsLeast(item: Item, queue: set<Item>) {
    item in queue && forall other :: other in queue && other != item ==> Before(item, other)
  }

  function Priority(origin: Origin): nat {
    if origin.OnDemand? then 0 else 1
  }

  /** `_submit_locked`. */
  function Submit<B, E>(s: State<B, E>, key: L.Key, origin: Origin): State<B, E> {
    s.(table := s.table + [Request(key, origin, Pending, 0)],
       registry := s.registry[key := |s.table|],
       queue := s.queue + {Item(Priority(origin), s.sequence, Some(|s.table|))},
       sequence := s.sequence + 1)
  }

  /** The stop tokens put by `close`. */
  function Stops(base: nat, n: nat): (r: set<Item>)
    ensures |r| == n
    ensures forall i :: i in r <==>
              i.priority == STOP_PRIORITY && base <= i.sequence < base + n && i.work.None?
  {
    if n == 0 then {} else Stops(base, n - 1) + {Item(STOP_PRIORITY, base + n - 1, None)}
  }

  function ReadResult<B, E>(content: L.Key -> B, key: L.Key, error: Option<E>): Result<B, E> {
    match error case None => Ok(content(key)) case Some(e) => Failed(e)
  }

  predicate Enabled<B, E>(s: State<B, E>, step: Step<E>) {
    match step
    case PrefetchCall(_, origin) => !origin.OnDemand?
    case DemandCall(thread, _) => thread !in s.demanders
    case DemandReturn(thread) =>
      thread in s.demanders && s.demanders[thread].Waiting? &&
      s.demanders[thread].id < |s.table| && s.table[s.demanders[thread].id].future.Settled?
    case DirectRead(thread, _) => thread in s.demanders && s.demanders[thread].Direct?
    case Take(worker, item) =>
      worker < |s.workers| && s.workers[worker].Idle? && IsLeast(item, s.queue) &&
      (item.work.Some? ==> item.work.value < |s.table|)
    case Settle(worker, _) =>
      worker < |s.workers| && s.workers[worker].Reading? && s.workers[worker].id < |s.table|
    case Close => true
  }

  function AfterPrefetch<B, E>(s: State<B, E>, key: L.Key, origin: Origin): State<B, E> {
    if key in s.registry || s.closed || |s.registry| >= s.maxInflight then s else Submit(s, key, origin)
  }

  function AfterDemand<B, E>(s: State<B, E>, thread: nat, key: L.Key): State<B, E> {
    if key in s.registry then s.(demanders := s.demanders[thread := Waiting(key, s.registry[key])])
    else if s.closed then s.(returned := s.returned + [Return(key, ClosedError)])
    else if |s.registry| >= s.maxInflight then s.(demanders := s.demanders[thread := Direct(key)])
    else Submit(s, key, OnDemand).(demanders := s.demanders[thread := Waiting(key, |s.table|)])
  }

  /** The end of `demand`: only the caller's own request is taken out of the registry. */
  function AfterReturn<B, E>(s: State<B, E>, thread: nat, d: Demander): State<B, E>
    requires d.Waiting? && d.id < |s.table| && s.table[d.id].future.Settled?
  {
    s.(registry := if d.key in s.registry && s.registry[d.key] == d.id then s.registry - {d.key} else s.registry,
       demanders := s.demanders - {thread},
       returned := s.returned + [Return(d.key, s.table[d.id].future.result)])
  }

  function AfterDirect<B, E>(content: L.Key -> B, s: State<B, E>, thread: nat, key: L.Key,
                             error: Option<E>): State<B, E> {
    s.(demanders := s.demanders - {thread}, returned := s.returned + [Return(key, ReadResult(content, key, error))])
  }

  function AfterStop<B, E>(s: State<B, E>, worker: nat, item: Item): State<B, E>
    requires worker < |s.workers|
  {
    s.(queue := s.queue - {item}, workers := s.workers[worker := Exited])
  }

  function AfterTake<B, E>(s: State<B, E>, worker: nat, item: Item, id: nat): State<B, E>
    requires worker < |s.workers| && id < |s.table|
  {
    s.(queue := s.queue - {item}, workers := s.workers[worker := Reading(id)],
       table := s.table[id := s.table[id].(timesRead := s.table[id].timesRead + 1)])
  }

  function AfterSettle<B, E>(content: L.Key -> B, s: State<B, E>, worker: nat, id: nat, error: Option<E>): State<B, E>
    requires worker < |s.workers| && id < |s.table|
  {
    s.(workers := s.workers[worker := Idle],
       table := s.table[id := s.table[id].(future := Settled(ReadResult(content, s.table[id].key, error)))])
  }

  function AfterClose<B, E>(s: State<B, E>): State<B, E> {
    if s.closed then s
    else
      s.(closed := true, queue := s.queue + Stops(s.sequence, |s.workers|), sequence := s.sequence + |s.workers|)
  }

  function Apply<B, E>(content: L.Key -> B, s: State<B, E>, step: Step<E>): State<B, E>
    requires Enabled(s, step)
  {
    match step
    case PrefetchCall(key, origin) => AfterPrefetch(s, key, origin)
    case DemandCall(thread, key) => AfterDemand(s, thread, key)
    case DemandReturn(thread) => AfterReturn(s, thread, s.demanders[thread])
    case DirectRead(thread, error) => AfterDirect(content, s, thread, s.demanders[thread].key, error)
    case Take(worker, item) =>
      if item.work.None? then AfterStop(s, worker, item) else AfterTake(s, worker, item, item.work.value)
    case Settle(worker, error) => AfterSettle(content, s, worker, s.workers[worker].id, error)
    case Close => AfterClose(s)
  }

  // ----- the invariant -----

  ghost predicate RegistryOk<B, E>(s: State<B, E>) {
    && (forall k :: k in s.registry ==> s.registry[k] < |s.table| && s.table[s.registry[k]].key == k)
    && |s.registry| <= s.maxInflight
  }

  ghost predicate ItemsOk<B, E>(s: State<B, E>) {
    forall i :: i in s.queue ==>
      && i.sequence < s.sequence
      && (i.work.None? ==> i.priority == STOP_PRIORITY)
      && (i.work.Some? ==>
            i.work.value == i.sequence < |s.table| && i.priority == Priority(s.table[i.work.value].origin) &&
            s.table[i.work.value].future.Pending? && s.table[i.work.value].timesRead == 0)
  }

  ghost predicate UniqueSequence(queue: set<Item>) {
    forall i, j :: i in queue && j in queue && i.sequence == j.sequence ==> i == j
  }

  ghost predicate UniqueWork(queue: set<Item>) {
    forall i, j :: i in queue && j in queue && i.work.Some? && i.work == j.work ==> i == j
  }

  /** Queued work belongs to unread pending requests, once each and numbered as they were
      made; stop tokens come last. */
  ghost predicate QueueOk<B, E>(s: State<B, E>) {
    (!s.closed ==> s.sequence == |s.table|) && ItemsOk(s) && UniqueSequence(s.queue) && UniqueWork(s.queue)
  }

  /** Requests being read are pending and read once, each by one worker. */
  ghost predicate WorkersOk<B, E>(s: State<B, E>) {
    && (forall w :: 0 <= w < |s.workers| && s.workers[w].Reading? ==>
          s.workers[w].id < |s.table| &&
          s.table[s.workers[w].id].future.Pending? && s.table[s.workers[w].id].timesRead == 1)
    && (forall v, w :: 0 <= v < w < |s.workers| && s.workers[v].Reading? && s.workers[w].Reading? ==>
          s.workers[v].id != s.workers[w].id)
  }

  ghost predicate Queued<B, E>(s: State<B, E>, id: nat) {
    exists i :: i in s.queue && i.work == Some(id)
  }

  ghost predicate BeingRead<B, E>(s: State<B, E>, id: nat) {
    exists w :: 0 <= w < |s.workers| && s.workers[w] == Reading(id)
  }

  /** A pending request is still registered and on its way; a settled one was read exactly
      once and holds its own key's bytes or the reader's error. */
  ghost predicate TableOk<B, E>(content: L.Key -> B, s: State<B, E>) {
    forall id :: 0 <= id < |s.table| ==>
      var r := s.table[id];
      && (r.future.Pending? ==>
            r.key in s.registry && s.registry[r.key] == id && (Queued(s, id) || BeingRead(s, id)))
      && (r.future.Settled? ==>
            r.timesRead == 1 && !r.future.result.ClosedError? &&
            (r.future.result.Ok? ==> r.future.result.bytes == content(r.key)))
  }

  function StopItems(queue: set<Item>): set<Item> {
    set i | i in queue && i.work.None?
  }

  function ExitedWorkers(workers: seq<Worker>): set<nat> {
    set w: nat | w < |workers| && workers[w].Exited?
  }

  /** Each worker gets one stop token, and only after all queued work is gone. */
  ghost predicate ShutdownOk<B, E>(s: State<B, E>) {
    && |StopItems(s.queue)| + |ExitedWorkers(s.workers)| == (if s.closed then |s.workers| else 0)
    && (ExitedWorkers(s.workers) != {} ==> forall i :: i in s.queue ==> i.work.None?)
  }

  ghost predicate CallersOk<B, E>(content: L.Key -> B, s: State<B, E>) {
    && (forall t :: t in s.demanders && s.demanders[t].Waiting? ==>
          s.demanders[t].id < |s.table| && s.table[s.demanders[t].id].key == s.demanders[t].key)
    && (forall n :: 0 <= n < |s.returned| && s.returned[n].result.Ok? ==>
          s.returned[n].result.bytes == content(s.returned[n].key))
    && (forall n :: 0 <= n < |s.returned| && s.returned[n].result.ClosedError? ==> s.closed)
  }

  ghost predicate Inv<B, E>(content: L.Key -> B, s: State<B, E>) {
    RegistryOk(s) && QueueOk(s) && WorkersOk(s) && TableOk(content, s) && ShutdownOk(s) && CallersOk(content, s)
  }

  lemma InitInv<B, E>(content: L.Key -> B, workers: nat, maxInflight: nat)
    ensures Inv(content, Init<B, E>(workers, maxInflight))
  {
    var s: State<B, E> := Init(workers, maxInflight);
    assert StopItems(s.queue) == {} && ExitedWorkers(s.workers) == {};
  }

  // ----- every step keeps the invariant -----

  /** `id` is on its way to a worker or with one. */
  ghost predicate OnItsWay<B, E>(s: State<B, E>, id: nat) {
    Queued(s, id) || BeingRead(s, id)
  }

  lemma StaysOnItsWay<B, E>(s: State<B, E>, t: State<B, E>, id: nat)
    requires OnItsWay(s, id) && s.queue <= t.queue && t.workers == s.workers
    ensures OnItsWay(t, id)
  {
    if Queued(s, id) {
      var i :| i in s.queue && i.work == Some(id);
      assert i in t.queue;
    } else {
      var w :| 0 <= w < |s.workers| && s.workers[w] == Reading(id);
      assert t.workers[w] == Reading(id);
    }
  }

  lemma SubmitQueue<B, E>(s: State<B, E>, key: L.Key, origin: Origin)
    requires QueueOk(s) && WorkersOk(s) && !s.closed
    ensures QueueOk(Submit(s, key, origin)) && WorkersOk(Submit(s, key, origin))
  {
  }

  lemma SubmitTable<B, E>(content: L.Key -> B, s: State<B, E>, key: L.Key, origin: Origin)
    requires TableOk(content, s) && key !in s.registry
    ensures TableOk(content, Submit(s, key, origin))
  {
    hide Queued; hide BeingRead;
    var t, n := Submit(s, key, origin), |s.table|;
    forall id | 0 <= id < |t.table| && t.table[id].future.Pending? ensures OnItsWay(t, id) {
      if id == n {
        NewItemIsQueued(t, Item(Priority(origin), s.sequence, Some(n)), n);
      } else {
        assert t.table[id] == s.table[id];
        StaysOnItsWay(s, t, id);
      }
    }
  }

  lemma NewItemIsQueued<B, E>(t: State<B, E>, item: Item, id: nat)
    requires item in t.queue && item.work == Some(id)
    ensures Queued(t, id)
  {
  }

  lemma SubmitShutdown<B, E>(s: State<B, E>, key: L.Key, origin: Origin)
    requires ShutdownOk(s) && !s.closed
    ensures ShutdownOk(Submit(s, key, origin))
  {
    var t := Submit(s, key, origin);
    assert StopItems(t.queue) == StopItems(s.queue);
    assert |ExitedWorkers(s.workers)| == 0;
  }

  lemma SubmitCallers<B, E>(content: L.Key -> B, s: State<B, E>, key: L.Key, origin: Origin)
    requires RegistryOk(s) && CallersOk(content, s) && key !in s.registry && |s.registry| < s.maxInflight
    ensures RegistryOk(Submit(s, key, origin)) && CallersOk(content, Submit(s, key, origin))
  {
    assert Submit(s, key, origin).registry.Keys == s.registry.Keys + {key};
  }

  lemma SubmitKeepsInv<B, E>(content: L.Key -> B, s: State<B, E>, key: L.Key, origin: Origin)
    requires Inv(content, s) && key !in s.registry && !s.closed && |s.registry| < s.maxInflight
    ensures Inv(content, Submit(s, key, origin))
  {
    hide *;
    assert RegistryOk(s) && QueueOk(s) && WorkersOk(s) && TableOk(content, s) && ShutdownOk(s) && CallersOk(content, s)
      by { Unfold(content, s); }
    SubmitQueue(s, key, origin);
    SubmitTable(content, s, key, origin);
    SubmitShutdown(s, key, origin);
    SubmitCallers(content, s, key, origin);
    Fold(content, Submit(s, key, origin));
  }

  lemma Unfold<B, E>(content: L.Key -> B, s: State<B, E>)
    requires Inv(content, s)
    ensures RegistryOk(s) && QueueOk(s) && WorkersOk(s) && TableOk(content, s) && ShutdownOk(s) && CallersOk(content, s)
  {
  }

  lemma Fold<B, E>(content: L.Key -> B, s: State<B, E>)
    requires RegistryOk(s) && QueueOk(s) && WorkersOk(s) && TableOk(content, s) && ShutdownOk(s) && CallersOk(content, s)
    ensures Inv(content, s)
  {
  }

  lemma UniqueUnion(queue: set<Item>, stops: set<Item>, base: nat)
    requires UniqueSequence(queue) && UniqueSequence(stops) && UniqueWork(queue)
    requires forall i :: i in queue ==> i.sequence < base
    requires forall i :: i in stops ==> base <= i.sequence && i.work.None?
    ensures UniqueSequence(queue + stops) && UniqueWork(queue + stops)
  {
  }

  lemma CloseQueue<B, E>(s: State<B, E>)
    requires QueueOk(s) && !s.closed
    ensures QueueOk(AfterClose(s))
  {
    hide Stops;
    var stops := Stops(s.sequence, |s.workers|);
    assert UniqueSequence(stops);
    hide UniqueSequence; hide UniqueWork;
    UniqueUnion(s.queue, stops, s.sequence);
  }

  lemma CloseTable<B, E>(content: L.Key -> B, s: State<B, E>)
    requires TableOk(content, s)
    ensures TableOk(content, AfterClose(s))
  {
    hide Queued; hide BeingRead; hide Stops;
    var t := AfterClose(s);
    forall id | 0 <= id < |t.table| && t.table[id].future.Pending? ensures OnItsWay(t, id) {
      StaysOnItsWay(s, t, id);
    }
  }

  lemma CloseShutdown<B, E>(s: State<B, E>)
    requires ShutdownOk(s) && !s.closed
    ensures ShutdownOk(AfterClose(s))
  {
    hide Stops;
    assert StopItems(s.queue) == {} && ExitedWorkers(s.workers) == {};
    forall i | i in s.queue ensures i.work.Some? {
      assert i !in StopItems(s.queue);
    }
    assert StopItems(AfterClose(s).queue) == Stops(s.sequence, |s.workers|);
  }

  lemma CloseKeepsInv<B, E>(content: L.Key -> B, s: State<B, E>)
    requires Inv(content, s)
    ensures Inv(content, AfterClose(s))
  {
    hide QueueOk; hide TableOk; hide ShutdownOk; hide Stops;
    if !s.closed {
      CloseQueue(s);
      CloseTable(content, s);
      CloseShutdown(s);
    }
  }

  // ----- callers -----

  lemma ReturnRegistry<B, E>(s: State<B, E>, thread: nat, d: Demander)
    requires RegistryOk(s) && d.Waiting? && d.id < |s.table| && s.table[d.id].future.Settled?
    ensures RegistryOk(AfterReturn(s, thread, d))
  {
    RemovalShrinks(s.registry, d.key);
  }

  lemma ReturnCallers<B, E>(content: L.Key -> B, s: State<B, E>, thread: nat, d: Demander)
    requires CallersOk(content, s) && d.Waiting? && d.id < |s.table| && s.table[d.id].future.Settled?
    requires var r := s.table[d.id].future.result; !r.ClosedError? && (r.Ok? ==> r.bytes == content(d.key))
    ensures CallersOk(content, AfterReturn(s, thread, d))
  {
    var t := AfterReturn(s, thread, d);
    forall x | x in t.demanders ensures x in s.demanders && t.demanders[x] == s.demanders[x] {}
    assert t.returned == s.returned + [Return(d.key, s.table[d.id].future.result)];
  }

  lemma ReturnTable<B, E>(content: L.Key -> B, s: State<B, E>, thread: nat, d: Demander)
    requires TableOk(content, s) && d.Waiting? && d.id < |s.table| && s.table[d.id].future.Settled?
    ensures TableOk(content, AfterReturn(s, thread, d))
  {
    hide Queued; hide BeingRead;
    var t := AfterReturn(s, thread, d);
    forall id | 0 <= id < |t.table| && t.table[id].future.Pending? ensures OnItsWay(t, id) {
      StaysOnItsWay(s, t, id);
    }
  }

  lemma ReturnKeepsInv<B, E>(content: L.Key -> B, s: State<B, E>, thread: nat)
    requires Inv(content, s) && thread in s.demanders && s.demanders[thread].Waiting?
    requires s.table[s.demanders[thread].id].future.Settled?
    ensures Inv(content, AfterReturn(s, thread, s.demanders[thread]))
  {
    var d := s.demanders[thread];
    Unfold(content, s);
    assert d.id < |s.table| && s.table[d.id].key == d.key by { hide TableOk; hide QueueOk; hide WorkersOk; hide ShutdownOk; }
    assert var r := s.table[d.id].future.result; !r.ClosedError? && (r.Ok? ==> r.bytes == content(d.key))
      by { hide Queued; hide BeingRead; hide QueueOk; hide WorkersOk; hide ShutdownOk; hide RegistryOk; }
    hide TableOk; hide RegistryOk; hide CallersOk; hide QueueOk; hide WorkersOk; hide ShutdownOk; hide Inv;
    ReturnRegistry(s, thread, d);
    ReturnCallers(content, s, thread, d);
    ReturnTable(content, s, thread, d);
    CallersOnly(s, AfterReturn(s, thread, d));
    Fold(content, AfterReturn(s, thread, d));
  }

  /** A step of a caller leaves queue, workers and shutdown alone. */
  lemma CallersOnly<B, E>(s: State<B, E>, t: State<B, E>)
    requires QueueOk(s) && WorkersOk(s) && ShutdownOk(s)
    requires t == s.(registry := t.registry, demanders := t.demanders, returned := t.returned)
    ensures QueueOk(t) && WorkersOk(t) && ShutdownOk(t)
  {
  }

  lemma RemovalShrinks(m: map<L.Key, nat>, key: L.Key)
    ensures |m - {key}| <= |m|
  {
    SubsetSize((m - {key}).Keys, m.Keys);
  }

  lemma SubsetSize<T>(a: set<T>, b: set<T>)
    requires a <= b
    ensures |a| <= |b|
  {
    assert b == a + (b - a);
  }

  lemma EnterKeepsCallers<B, E>(content: L.Key -> B, s: State<B, E>, thread: nat, d: Demander)
    requires CallersOk(content, s) && (d.Waiting? ==> d.id < |s.table| && s.table[d.id].key == d.key)
    ensures CallersOk(content, s.(demanders := s.demanders[thread := d]))
  {
  }

  lemma RefusalKeepsCallers<B, E>(content: L.Key -> B, s: State<B, E>, key: L.Key)
    requires CallersOk(content, s) && s.closed
    ensures CallersOk(content, s.(returned := s.returned + [Return(key, ClosedError)]))
  {
  }

  lemma DemandKeepsInv<B, E>(content: L.Key -> B, s: State<B, E>, thread: nat, key: L.Key)
    requires Inv(content, s)
    ensures Inv(content, AfterDemand(s, thread, key))
  {
    var submitted := key !in s.registry && !s.closed && |s.registry| < s.maxInflight;
    var base := if submitted then Submit(s, key, OnDemand) else s;
    if submitted { SubmitKeepsInv(content, s, key, OnDemand); }
    var t := AfterDemand(s, thread, key);
    Unfold(content, base);
    assert key in base.registry ==>
        base.registry[key] < |base.table| && base.table[base.registry[key]].key == key;
    hide QueueOk; hide ShutdownOk; hide WorkersOk; hide TableOk; hide Inv; hide CallersOk; hide RegistryOk;
    CallersOnly(base, t);
    TableUntouched(content, base, t);
    if key in base.registry {
      EnterKeepsCallers(content, base, thread, Waiting(key, base.registry[key]));
    } else if s.closed {
      RefusalKeepsCallers(content, base, key);
    } else {
      EnterKeepsCallers(content, base, thread, Direct(key));
    }
    assert RegistryOk(t) by { RegistryUntouched(base, t); }
    Fold(content, t);
  }

  lemma RegistryUntouched<B, E>(s: State<B, E>, t: State<B, E>)
    requires RegistryOk(s) && t == s.(demanders := t.demanders, returned := t.returned)
    ensures RegistryOk(t)
  {
  }

  lemma DirectCallers<B, E>(content: L.Key -> B, s: State<B, E>, thread: nat, key: L.Key, error: Option<E>)
    requires RegistryOk(s) && CallersOk(content, s)
    ensures RegistryOk(AfterDirect(content, s, thread, key, error))
    ensures CallersOk(content, AfterDirect(content, s, thread, key, error))
  {
  }

  lemma DirectKeepsInv<B, E>(content: L.Key -> B, s: State<B, E>, thread: nat, key: L.Key, error: Option<E>)
    requires Inv(content, s)
    ensures Inv(content, AfterDirect(content, s, thread, key, error))
  {
    hide QueueOk; hide ShutdownOk; hide WorkersOk; hide TableOk; hide RegistryOk; hide CallersOk;
    CallersOnly(s, AfterDirect(content, s, thread, key, error));
    TableUntouched(content, s, AfterDirect(content, s, thread, key, error));
    DirectCallers(content, s, thread, key, error);
  }

  lemma TableUntouched<B, E>(content: L.Key -> B, s: State<B, E>, t: State<B, E>)
    requires TableOk(content, s) && t == s.(demanders := t.demanders, returned := t.returned)
    ensures TableOk(content, t)
  {
    hide Queued; hide BeingRead;
    forall id | 0 <= id < |t.table| && t.table[id].future.Pending? ensures OnItsWay(t, id) {
      StaysOnItsWay(s, t, id);
    }
  }

  // ----- workers -----

  /** A stop token can only be the least item when no work is queued. */
  lemma StopIsLast<B, E>(s: State<B, E>, item: Item)
    requires QueueOk(s) && IsLeast(item, s.queue) && item.work.None?
    ensures forall i :: i in s.queue ==> i.work.None?
  {
    forall i | i in s.queue ensures i.work.None? {
      assert i == item || Before(item, i);
    }
  }

  lemma StopTable<B, E>(content: L.Key -> B, s: State<B, E>, worker: nat, item: Item)
    requires TableOk(content, s) && worker < |s.workers| && s.workers[worker].Idle? && item.work.None?
    ensures TableOk(content, AfterStop(s, worker, item))
  {
    var t := AfterStop(s, worker, item);
    forall id | 0 <= id < |t.table| && t.table[id].future.Pending? ensures OnItsWay(t, id) {
      MovesAlong(s, t, worker, item, id);
    }
  }

  /** The one idle worker and the one item of a step carry no other request. */
  lemma MovesAlong<B, E>(s: State<B, E>, t: State<B, E>, worker: nat, item: Item, id: nat)
    requires OnItsWay(s, id) && worker < |s.workers| == |t.workers|
    requires t.queue == s.queue - {item} && item.work != Some(id) && s.workers[worker] != Reading(id)
    requires forall w :: 0 <= w < |s.workers| && w != worker ==> t.workers[w] == s.workers[w]
    ensures OnItsWay(t, id)
  {
    if Queued(s, id) {
      var i :| i in s.queue && i.work == Some(id);
      assert i in t.queue;
    } else {
      var w :| 0 <= w < |s.workers| && s.workers[w] == Reading(id);
      assert t.workers[w] == Reading(id);
    }
  }

  lemma StopShutdown<B, E>(s: State<B, E>, worker: nat, item: Item)
    requires ShutdownOk(s) && item in s.queue && item.work.None?
    requires worker < |s.workers| && s.workers[worker].Idle? && forall i :: i in s.queue ==> i.work.None?
    ensures ShutdownOk(AfterStop(s, worker, item))
  {
    var t := AfterStop(s, worker, item);
    assert item in StopItems(s.queue);
    assert StopItems(t.queue) == StopItems(s.queue) - {item};
    assert ExitedWorkers(t.workers) == ExitedWorkers(s.workers) + {worker};
  }

  lemma StopKeepsInv<B, E>(content: L.Key -> B, s: State<B, E>, worker: nat, item: Item)
    requires Inv(content, s) && worker < |s.workers| && s.workers[worker].Idle?
    requires IsLeast(item, s.queue) && item.work.None?
    ensures Inv(content, AfterStop(s, worker, item))
  {
    hide TableOk; hide ShutdownOk;
    StopIsLast(s, item);
    StopTable(content, s, worker, item);
    StopShutdown(s, worker, item);
    hide IsLeast;
  }

  lemma TakeQueue<B, E>(s: State<B, E>, worker: nat, item: Item, id: nat)
    requires QueueOk(s) && WorkersOk(s) && item in s.queue && item.work == Some(id)
    requires worker < |s.workers| && s.workers[worker].Idle? && id < |s.table|
    ensures QueueOk(AfterTake(s, worker, item, id)) && WorkersOk(AfterTake(s, worker, item, id))
  {
  }

  lemma TakeTable<B, E>(content: L.Key -> B, s: State<B, E>, worker: nat, item: Item, id: nat)
    requires TableOk(content, s) && item in s.queue && item.work == Some(id)
    requires worker < |s.workers| && s.workers[worker].Idle? && id < |s.table| && s.table[id].future.Pending?
    ensures TableOk(content, AfterTake(s, worker, item, id))
  {
    var t := AfterTake(s, worker, item, id);
    forall n | 0 <= n < |t.table| && t.table[n].future.Pending? ensures OnItsWay(t, n) {
      if n == id {
        assert t.workers[worker] == Reading(id);
      } else {
        MovesAlong(s, t, worker, item, n);
      }
    }
  }

  lemma TakeShutdown<B, E>(s: State<B, E>, worker: nat, item: Item, id: nat)
    requires ShutdownOk(s) && item in s.queue && item.work == Some(id)
    requires worker < |s.workers| && s.workers[worker].Idle? && id < |s.table|
    ensures ShutdownOk(AfterTake(s, worker, item, id))
  {
    var t := AfterTake(s, worker, item, id);
    assert StopItems(t.queue) == StopItems(s.queue);
    assert ExitedWorkers(t.workers) == ExitedWorkers(s.workers);
  }

  lemma TakeKeepsInv<B, E>(content: L.Key -> B, s: State<B, E>, worker: nat, item: Item, id: nat)
    requires Inv(content, s) && worker < |s.workers| && s.workers[worker].Idle?
    requires item in s.queue && item.work == Some(id)
    ensures id < |s.table| && s.table[id].timesRead == 0
    ensures Inv(content, AfterTake(s, worker, item, id))
  {
    assert id < |s.table| && s.table[id].future.Pending? && s.table[id].timesRead == 0;
    hide QueueOk; hide WorkersOk; hide TableOk; hide ShutdownOk;
    TakeQueue(s, worker, item, id);
    TakeTable(content, s, worker, item, id);
    TakeShutdown(s, worker, item, id);
  }

  lemma SettleTable<B, E>(content: L.Key -> B, s: State<B, E>, worker: nat, id: nat, error: Option<E>)
    requires TableOk(content, s) && WorkersOk(s) && worker < |s.workers| && s.workers[worker] == Reading(id)
    ensures TableOk(content, AfterSettle(content, s, worker, id, error))
  {
    var t := AfterSettle(content, s, worker, id, error);
    forall n | 0 <= n < |t.table| && t.table[n].future.Pending? ensures OnItsWay(t, n) {
      assert t.table[n] == s.table[n];
      if Queued(s, n) {
        var i :| i in s.queue && i.work == Some(n);
        assert i in t.queue;
      } else {
        var w :| 0 <= w < |s.workers| && s.workers[w] == Reading(n);
        assert t.workers[w] == Reading(n);
      }
    }
  }

  lemma SettleQueue<B, E>(content: L.Key -> B, s: State<B, E>, worker: nat, id: nat, error: Option<E>)
    requires QueueOk(s) && WorkersOk(s) && worker < |s.workers| && s.workers[worker] == Reading(id)
    ensures QueueOk(AfterSettle(content, s, worker, id, error))
    ensures WorkersOk(AfterSettle(content, s, worker, id, error))
  {
  }

  lemma SettleKeepsInv<B, E>(content: L.Key -> B, s: State<B, E>, worker: nat, id: nat, error: Option<E>)
    requires Inv(content, s) && worker < |s.workers| && s.workers[worker] == Reading(id)
    ensures id < |s.table| && s.table[id].future.Pending?
    ensures Inv(content, AfterSettle(content, s, worker, id, error))
  {
    assert id < |s.table| && s.table[id].future.Pending?;
    SettleTable(content, s, worker, id, error);
    SettleQueue(content, s, worker, id, error);
    hide QueueOk; hide WorkersOk; hide TableOk; hide StopItems;
    var t := AfterSettle(content, s, worker, id, error);
    assert ExitedWorkers(t.workers) == ExitedWorkers(s.workers);
  }

  /** Every enabled step of callers, workers or shutdown keeps the invariant. */
  lemma StepKeepsInv<B, E>(content: L.Key -> B, s: State<B, E>, step: Step<E>)
    requires Inv(content, s) && Enabled(s, step)
    ensures Inv(content, Apply(content, s, step))
  {
    hide QueueOk; hide WorkersOk; hide TableOk; hide ShutdownOk; hide Inv; hide Stops;
    match step
    case PrefetchCall(key, origin) =>
      if key !in s.registry && !s.closed && |s.registry| < s.maxInflight {
        SubmitKeepsInv(content, s, key, origin);
      }
    case DemandCall(thread, key) => DemandKeepsInv(content, s, thread, key);
    case DemandReturn(thread) => ReturnKeepsInv(content, s, thread);
    case DirectRead(thread, error) => DirectKeepsInv(content, s, thread, s.demanders[thread].key, error);
    case Take(worker, item) =>
      if item.work.None? {
        StopKeepsInv(content, s, worker, item);
      } else {
        TakeKeepsInv(content, s, worker, item, item.work.value);
      }
    case Settle(worker, error) => SettleKeepsInv(content, s, worker, s.workers[worker].id, error);
    case Close => CloseKeepsInv(content, s);
  }

  // ----- whole runs -----

  ghost predicate Runs<B, E>(content: L.Key -> B, s: State<B, E>, steps: seq<Step<E>>)
    decreases |steps|
  {
    steps == [] || (Enabled(s, steps[0]) && Runs(content, Apply(content, s, steps[0]), steps[1..]))
  }

  ghost function Final<B, E>(content: L.Key -> B, s: State<B, E>, steps: seq<Step<E>>): State<B, E>
    requires Runs(content, s, steps)
    decreases |steps|
  {
    if steps == [] then s else Final(content, Apply(content, s, steps[0]), steps[1..])
  }

  lemma {:induction false} RunKeepsInv<B, E>(content: L.Key -> B, s: State<B, E>, steps: seq<Step<E>>)
    requires Inv(content, s) && Runs(content, s, steps)
    ensures Inv(content, Final(content, s, steps))
    decreases |steps|
  {
    hide Inv; hide Apply; hide Enabled;
    if steps != [] {
      StepKeepsInv(content, s, steps[0]);
      RunKeepsInv(content, Apply(content, s, steps[0]), steps[1..]);
    }
  }

  /** In every interleaving of any callers and workers the invariant holds. */
  lemma EveryInterleavingIsSafe<B, E>(content: L.Key -> B, workers: nat, maxInflight: nat, steps: seq<Step<E>>)
    requires Runs(content, Init<B, E>(workers, maxInflight), steps)
    ensures Inv(content, Final(content, Init<B, E>(workers, maxInflight), steps))
  {
    InitInv<B, E>(content, workers, maxInflight);
    RunKeepsInv(content, Init<B, E>(workers, maxInflight), steps);
  }

  // ----- what the invariant promises -----

  ghost function PendingIds<B, E>(s: State<B, E>): set<nat> {
    set id: nat | id < |s.table| && s.table[id].future.Pending?
  }

  ghost function QueuedIds<B, E>(s: State<B, E>): set<nat> {
    set i | i in s.queue && i.work.Some? :: i.work.value
  }

  ghost function ReadingIds<B, E>(s: State<B, E>): set<nat> {
    set w | 0 <= w < |s.workers| && s.workers[w].Reading? :: s.workers[w].id
  }

  lemma {:induction false} InjectionBound(ids: set<nat>, registry: map<L.Key, nat>, keyOf: nat -> L.Key)
    requires forall id :: id in ids ==> keyOf(id) in registry && registry[keyOf(id)] == id
    ensures |ids| <= |registry|
    decreases |ids|
  {
    if ids != {} {
      var id :| id in ids;
      var rest := registry - {keyOf(id)};
      assert registry.Keys == rest.Keys + {keyOf(id)};
      InjectionBound(ids - {id}, rest, keyOf);
    }
  }

  lemma IdsAre<B, E>(content: L.Key -> B, s: State<B, E>)
    requires TableOk(content, s) && QueueOk(s) && WorkersOk(s)
    ensures QueuedIds(s) + ReadingIds(s) == PendingIds(s) && QueuedIds(s) !! ReadingIds(s)
  {
    forall id | id in PendingIds(s) ensures id in QueuedIds(s) + ReadingIds(s) {
      assert OnItsWay(s, id);
    }
  }

  /** Queued plus running reads are exactly the pending requests, each of them once; there
      are never more of them than registered requests, nor more of those than the limit. */
  lemma InflightIsBounded<B, E>(content: L.Key -> B, s: State<B, E>)
    requires Inv(content, s)
    ensures QueuedIds(s) + ReadingIds(s) == PendingIds(s) && QueuedIds(s) !! ReadingIds(s)
    ensures |QueuedIds(s)| + |ReadingIds(s)| <= |s.registry| <= s.maxInflight
  {
    IdsAre(content, s);
    hide QueueOk; hide WorkersOk; hide QueuedIds; hide ReadingIds; hide Queued; hide BeingRead;
    assert |QueuedIds(s) + ReadingIds(s)| == |QueuedIds(s)| + |ReadingIds(s)|;
    InjectionBound(PendingIds(s), s.registry, id => if 0 <= id < |s.table| then s.table[id].key else L.Key(0, 0));
  }

  /** Every request is read at most once, and exactly once by the time it is settled. */
  lemma ReadsAreUnique<B, E>(content: L.Key -> B, s: State<B, E>, id: nat)
    requires Inv(content, s) && id < |s.table|
    ensures s.table[id].timesRead <= 1 && (s.table[id].future.Settled? ==> s.table[id].timesRead == 1)
    ensures s.table[id].future.Pending? ==>
              s.table[id].key in s.registry && s.registry[s.table[id].key] == id &&
              s.table[id].timesRead == (if id in ReadingIds(s) then 1 else 0)
  {
    if s.table[id].future.Pending? {
      assert OnItsWay(s, id);
      InflightIsBounded(content, s);
    }
  }

  /** No step touches a settled request: its future is settled once and for all. */
  lemma SettledStays<B, E>(content: L.Key -> B, s: State<B, E>, step: Step<E>, id: nat)
    requires Inv(content, s) && Enabled(s, step) && id < |s.table| && s.table[id].future.Settled?
    ensures var t := Apply(content, s, step); id < |t.table| && t.table[id] == s.table[id]
  {
    hide Stops; hide ShutdownOk; hide CallersOk; hide RegistryOk; hide TableOk;
    if step.Take? && step.item.work.Some? {
      assert step.item in s.queue;
    }
  }

  /** A caller that returns late removes its own request only, never a newer one of its key. */
  lemma ReturnRemovesOnlyItsOwn<B, E>(content: L.Key -> B, s: State<B, E>, thread: nat)
    requires Inv(content, s) && Enabled(s, Step<E>.DemandReturn(thread))
    ensures var d, t := s.demanders[thread], Apply(content, s, Step<E>.DemandReturn(thread));
            && (forall k :: k in s.registry && s.registry[k] != d.id ==> k in t.registry && t.registry[k] == s.registry[k])
            && (forall k :: k in t.registry ==> k in s.registry && t.registry[k] == s.registry[k] != d.id)
            && t.returned == s.returned + [Return(d.key, s.table[d.id].future.result)]
            && (var r := s.table[d.id].future.result; !r.ClosedError? && (r.Ok? ==> r.bytes == content(d.key)))
  {
    hide QueueOk; hide WorkersOk; hide ShutdownOk; hide Queued; hide BeingRead;
    var d := s.demanders[thread];
    assert s.table[d.id].key == d.key;
    assert forall k :: k in s.registry && s.registry[k] == d.id ==> k == d.key;
  }

  /** A worker takes a speculative read only when no demanded one is waiting, and of the
      demanded or the speculative ones always the oldest. */
  lemma DemandsComeFirst<B, E>(content: L.Key -> B, s: State<B, E>, worker: nat, item: Item)
    requires Inv(content, s) && Enabled(s, Step<E>.Take(worker, item)) && item.work.Some?
    ensures forall id :: 0 <= id < |s.table| && Queued(s, id) ==>
              (s.table[id].origin.OnDemand? ==> s.table[item.work.value].origin.OnDemand?) &&
              (s.table[id].origin.OnDemand? == s.table[item.work.value].origin.OnDemand? ==> item.work.value <= id)
  {
    hide TableOk; hide WorkersOk; hide RegistryOk; hide ShutdownOk; hide CallersOk;
    forall id | 0 <= id < |s.table| && Queued(s, id)
      ensures s.table[id].origin.OnDemand? ==> s.table[item.work.value].origin.OnDemand?
      ensures s.table[id].origin.OnDemand? == s.table[item.work.value].origin.OnDemand? ==> item.work.value <= id
    {
      var i :| i in s.queue && i.work == Some(id);
      assert i == item || Before(item, i);
    }
  }

  // ----- what every demand gets, told by the steps of the run -----

  /** What ends a demand: its settled request, its own direct read, or the closed loader. */
  datatype Cause<+E> =
    | ByRequest(key: Option<L.Key>, id: nat)
    | ByDirect(key: Option<L.Key>, error: Option<E>)
    | Refused(key: Option<L.Key>)

  lemma {:induction false} RunsSnoc<B, E>(content: L.Key -> B, s: State<B, E>, steps: seq<Step<E>>)
    requires Runs(content, s, steps) && steps != []
    ensures var before, step := steps[..|steps| - 1], steps[|steps| - 1];
            && Runs(content, s, before) && Enabled(Final(content, s, before), step)
            && Final(content, s, steps) == Apply(content, Final(content, s, before), step)
    decreases |steps|
  {
    hide Apply; hide Enabled;
    var before := steps[..|steps| - 1];
    if |steps| == 1 {
      assert steps[1..] == [] && before == [];
    } else {
      RunsSnoc(content, Apply(content, s, steps[0]), steps[1..]);
      assert steps[1..][..|steps| - 2] == before[1..];
    }
  }

  /** The key of the thread's latest call of `demand`. */
  ghost function Demanded<E>(steps: seq<Step<E>>, thread: nat): Option<L.Key> {
    if steps == [] then None
    else
      var step := steps[|steps| - 1];
      if step.DemandCall? && step.thread == thread then Some(step.demanded)
      else Demanded(steps[..|steps| - 1], thread)
  }

  /** What the reads that settled request `id` raised, in order. */
  ghost function SettleErrors<B, E>(content: L.Key -> B, s: State<B, E>, steps: seq<Step<E>>, id: nat): seq<Option<E>>
    requires Runs(content, s, steps)
  {
    if steps == [] then []
    else
      RunsSnoc(content, s, steps);
      var before, step := steps[..|steps| - 1], steps[|steps| - 1];
      SettleErrors(content, s, before, id) +
      if step.Settle? && Final(content, s, before).workers[step.worker] == Reading(id) then [step.error] else []
  }

  /** The cause of every return of `demand`, in the order of the returns. */
  ghost function Causes<B, E>(content: L.Key -> B, s: State<B, E>, steps: seq<Step<E>>): seq<Cause<E>>
    requires Runs(content, s, steps)
  {
    if steps == [] then []
    else
      RunsSnoc(content, s, steps);
      var before, step := steps[..|steps| - 1], steps[|steps| - 1];
      var at := Final(content, s, before);
      Causes(content, s, before) +
      match step
      case DemandReturn(thread) => [ByRequest(Demanded(before, thread), at.demanders[thread].id)]
      case DirectRead(thread, error) => [ByDirect(Demanded(before, thread), error)]
      case DemandCall(_, key) => if key !in at.registry && at.closed then [Refused(Some(key))] else []
      case _ => []
  }

  /** The caller gets the read's error if there was one, and otherwise the key's bytes. */
  ghost predicate Carries<B, E>(content: L.Key -> B, result: Result<B, E>, key: L.Key, error: Option<E>) {
    && (result.Failed? <==> error.Some?) && (result.Failed? ==> result.error == error.value)
    && (result.Ok? <==> error.None?) && (result.Ok? ==> result.bytes == content(key))
  }

  ghost predicate Answers<B, E>(content: L.Key -> B, s: State<B, E>, steps: seq<Step<E>>, r: Return<B, E>,
                                cause: Cause<E>)
    requires Runs(content, s, steps)
  {
    cause.key == Some(r.key) &&
    match cause
    case ByRequest(_, id) =>
      var errors := SettleErrors(content, s, steps, id);
      |errors| == 1 && Carries(content, r.result, r.key, errors[0])
    case ByDirect(_, error) => Carries(content, r.result, r.key, error)
    case Refused(_) => r.result.ClosedError?
  }

  /** A run starts with no request, no caller and no return. */
  ghost predicate Fresh<B, E>(content: L.Key -> B, s: State<B, E>) {
    Inv(content, s) && s.table == [] && s.demanders == map[] && s.returned == []
  }

  /** One step and one request: only the settling of its read changes a future. */
  lemma RequestStep<B, E>(content: L.Key -> B, s: State<B, E>, step: Step<E>, id: nat)
    requires Inv(content, s) && Enabled(s, step)
    ensures var t := Apply(content, s, step);
            if step.Settle? && s.workers[step.worker] == Reading(id) then
              && id < |s.table| && s.table[id].future.Pending?
              && id < |t.table| && t.table[id].key == s.table[id].key && t.table[id].future.Settled?
              && Carries(content, t.table[id].future.result, t.table[id].key, step.error)
            else
              && |s.table| <= |t.table|
              && (id < |s.table| ==> t.table[id].key == s.table[id].key && t.table[id].future == s.table[id].future)
              && (|s.table| <= id < |t.table| ==> t.table[id].future.Pending?)
  {
    hide Stops; hide ShutdownOk; hide CallersOk; hide RegistryOk; hide TableOk; hide QueueOk;
    match step
    case Settle(worker, error) => assert s.workers[worker].id == id ==> s.table[id].future.Pending?;
    case _ => hide WorkersOk;
  }

  /** A request is settled by exactly one read, and its future holds what that read brought. */
  lemma {:induction false} FutureIsCarried<B, E>(content: L.Key -> B, s: State<B, E>, steps: seq<Step<E>>, id: nat)
    requires Fresh(content, s) && Runs(content, s, steps)
    ensures var t, errors := Final(content, s, steps), SettleErrors(content, s, steps, id);
            if id < |t.table| && t.table[id].future.Settled? then
              |errors| == 1 && Carries(content, t.table[id].future.result, t.table[id].key, errors[0])
            else errors == []
    decreases |steps|
  {
    hide Apply; hide Enabled; hide Inv; hide Carries; hide Runs;
    if steps != [] {
      var before, step := steps[..|steps| - 1], steps[|steps| - 1];
      RunsSnoc(content, s, steps);
      FutureIsCarried(content, s, before, id);
      RunKeepsInv(content, s, before);
      RequestStep(content, Final(content, s, before), step, id);
    }
  }

  lemma CallerStep<B, E>(content: L.Key -> B, s: State<B, E>, step: Step<E>, thread: nat)
    requires Enabled(s, step)
    ensures var t := Apply(content, s, step);
            thread in t.demanders ==>
              if step.DemandCall? && step.thread == thread then t.demanders[thread].key == step.demanded
              else thread in s.demanders && t.demanders[thread] == s.demanders[thread]
  {
    hide Stops;
  }

  /** A caller inside `demand` is there for the key it asked for. */
  lemma {:induction false} CallerIsDemanded<B, E>(content: L.Key -> B, s: State<B, E>, steps: seq<Step<E>>, thread: nat)
    requires Fresh(content, s) && Runs(content, s, steps)
    ensures thread in Final(content, s, steps).demanders ==>
              Demanded(steps, thread) == Some(Final(content, s, steps).demanders[thread].key)
    decreases |steps|
  {
    hide Apply; hide Enabled; hide Inv; hide Runs;
    if steps != [] {
      var before, step := steps[..|steps| - 1], steps[|steps| - 1];
      RunsSnoc(content, s, steps);
      CallerIsDemanded(content, s, before, thread);
      CallerStep(content, Final(content, s, before), step, thread);
    }
  }

  /** A step returns at most one demand, and from this state in this way. */
  lemma ReturnStep<B, E>(content: L.Key -> B, s: State<B, E>, step: Step<E>)
    requires Inv(content, s) && Enabled(s, step)
    ensures var t := Apply(content, s, step);
            match step
            case DemandReturn(thread) =>
              var d := s.demanders[thread];
              d.key == s.table[d.id].key && t.returned == s.returned + [Return(d.key, s.table[d.id].future.result)]
            case DirectRead(thread, error) =>
              && t.returned == s.returned + [t.returned[|t.returned| - 1]]
              && t.returned[|t.returned| - 1].key == s.demanders[thread].key
              && Carries(content, t.returned[|t.returned| - 1].result, s.demanders[thread].key, error)
            case DemandCall(_, key) =>
              t.returned == s.returned + if key !in s.registry && s.closed then [Return(key, ClosedError)] else []
            case _ => t.returned == s.returned
  {
    hide Stops; hide ShutdownOk; hide RegistryOk; hide TableOk; hide QueueOk; hide WorkersOk;
  }

  lemma AnswersStay<B, E>(content: L.Key -> B, s: State<B, E>, steps: seq<Step<E>>, r: Return<B, E>, cause: Cause<E>)
    requires Fresh(content, s) && Runs(content, s, steps) && steps != []
    requires Runs(content, s, steps[..|steps| - 1]) && Answers(content, s, steps[..|steps| - 1], r, cause)
    ensures Answers(content, s, steps, r, cause)
  {
    hide Apply; hide Enabled; hide Inv; hide Carries; hide Runs;
    if cause.ByRequest? {
      RunsSnoc(content, s, steps);
      var before, step := steps[..|steps| - 1], steps[|steps| - 1];
      FutureIsCarried(content, s, before, cause.id);
      RunKeepsInv(content, s, before);
      RequestStep(content, Final(content, s, before), step, cause.id);
    }
  }

  lemma LastAnswered<B, E>(content: L.Key -> B, s: State<B, E>, steps: seq<Step<E>>)
    requires Fresh(content, s) && Runs(content, s, steps) && steps != [] && Runs(content, s, steps[..|steps| - 1])
    ensures var before, t := steps[..|steps| - 1], Final(content, s, steps);
            var causes, returned := Causes(content, s, before), Final(content, s, before).returned;
            if Causes(content, s, steps) == causes then t.returned == returned
            else
              && |Causes(content, s, steps)| == |causes| + 1 && Causes(content, s, steps)[..|causes|] == causes
              && |t.returned| == |returned| + 1 && t.returned[..|returned|] == returned
              && Answers(content, s, steps, t.returned[|returned|], Causes(content, s, steps)[|causes|])
  {
    hide Apply; hide Enabled; hide Inv; hide Carries; hide Runs;
    var before, step := steps[..|steps| - 1], steps[|steps| - 1];
    RunsSnoc(content, s, steps);
    RunKeepsInv(content, s, before);
    var at := Final(content, s, before);
    ReturnStep(content, at, step);
    match step
    case DemandReturn(thread) =>
      CanReturn(at, thread);
      CallerIsDemanded(content, s, before, thread);
      FutureIsCarried(content, s, before, at.demanders[thread].id);
    case DirectRead(thread, error) =>
      CanRead(at, thread, error);
      CallerIsDemanded(content, s, before, thread);
    case _ =>
  }

  lemma CanReturn<B, E>(s: State<B, E>, thread: nat)
    requires Enabled(s, Step<E>.DemandReturn(thread))
    ensures thread in s.demanders && s.demanders[thread].Waiting? && s.demanders[thread].id < |s.table|
    ensures s.table[s.demanders[thread].id].future.Settled?
  {
  }

  lemma CanRead<B, E>(s: State<B, E>, thread: nat, error: Option<E>)
    requires Enabled(s, DirectRead(thread, error))
    ensures thread in s.demanders
  {
  }

  lemma {:induction false} RunIsAnswered<B, E>(content: L.Key -> B, s: State<B, E>, steps: seq<Step<E>>)
    requires Fresh(content, s) && Runs(content, s, steps)
    ensures |Final(content, s, steps).returned| == |Causes(content, s, steps)|
    ensures forall n :: 0 <= n < |Causes(content, s, steps)| ==>
              Answers(content, s, steps, Final(content, s, steps).returned[n], Causes(content, s, steps)[n])
    decreases |steps|
  {
    hide Apply; hide Enabled; hide Inv; hide Answers; hide Runs;
    if steps != [] {
      RunsSnoc(content, s, steps);
      var before := steps[..|steps| - 1];
      RunIsAnswered(content, s, before);
      LastAnswered(content, s, steps);
      var was, now := Final(content, s, before).returned, Final(content, s, steps).returned;
      var causes := Causes(content, s, steps);
      forall n | 0 <= n < |causes| ensures Answers(content, s, steps, now[n], causes[n]) {
        if n < |was| {
          assert now[n] == was[n] && causes[n] == Causes(content, s, before)[n];
          AnswersStay(content, s, steps, now[n], causes[n]);
        }
      }
    }
  }

  /** In every run from the start each return of `demand` has its cause: the one read that
      settled its request, its own direct read, or the closed loader. The caller asked for
      the key, gets the error exactly when that read raised it, and the key's bytes exactly
      when it did not; and none is refused before the loader is closed. */
  lemma EveryDemandIsExact<B, E>(content: L.Key -> B, workers: nat, maxInflight: nat, steps: seq<Step<E>>)
    requires Runs(content, Init<B, E>(workers, maxInflight), steps)
    ensures var init := Init<B, E>(workers, maxInflight);
            var s, causes := Final(content, init, steps), Causes(content, init, steps);
            && |s.returned| == |causes|
            && (forall n :: 0 <= n < |causes| ==> Answers(content, init, steps, s.returned[n], causes[n]))
            && (forall n :: 0 <= n < |causes| && s.returned[n].result.ClosedError? ==> s.closed)
  {
    hide Runs; hide Answers; hide Causes; hide Final; hide TableOk; hide QueueOk; hide WorkersOk; hide RegistryOk;
    hide ShutdownOk;
    InitInv<B, E>(content, workers, maxInflight);
    RunIsAnswered(content, Init<B, E>(workers, maxInflight), steps);
    EveryInterleavingIsSafe(content, workers, maxInflight, steps);
  }

  /** A speculative request is registered exactly when its key already was or the loader is
      open with a free slot, and only the second makes a new request, on its way to a worker. */
  lemma PrefetchIsAdmitted<B, E>(content: L.Key -> B, s: State<B, E>, key: L.Key, origin: Origin)
    requires Inv(content, s) && !origin.OnDemand?
    ensures var t := Apply(content, s, PrefetchCall(key, origin));
            && (key in t.registry <==> key in s.registry || (!s.closed && |s.registry| < s.maxInflight))
            && (t != s <==> key !in s.registry && key in t.registry)
            && (t != s ==> |t.table| == |s.table| + 1 && t.registry == s.registry[key := |s.table|] &&
                           t.table[|s.table|].key == key && t.table[|s.table|].origin == origin && Queued(t, |s.table|))
  {
    hide Inv; hide Queued;
    var t := Apply(content, s, PrefetchCall(key, origin));
    if key in s.registry || s.closed || |s.registry| >= s.maxInflight {
    } else {
      assert |t.table| == |s.table| + 1;
      NewItemIsQueued(t, Item(1, s.sequence, Some(|s.table|)), |s.table|);
    }
  }

  /** A demand waits for the request registered under its key, made now if there was none and
      a slot is free; it reads directly exactly when every slot of the open loader is taken. */
  lemma DemandIsServed<B, E>(content: L.Key -> B, s: State<B, E>, thread: nat, key: L.Key)
    requires Inv(content, s) && thread !in s.demanders
    ensures var t := Apply(content, s, Step<E>.DemandCall(thread, key));
            && (key in s.registry || (!s.closed && |s.registry| < s.maxInflight) <==>
                  thread in t.demanders && key in t.registry && t.demanders[thread] == Waiting(key, t.registry[key]))
            && (thread in t.demanders && t.demanders[thread] == Direct(key) <==>
                  key !in s.registry && !s.closed && |s.registry| >= s.maxInflight)
            && (thread !in t.demanders <==> key !in s.registry && s.closed)
            && (key in s.registry || s.closed || |s.registry| >= s.maxInflight ==>
                  t == s.(demanders := t.demanders, returned := t.returned))
            && (key !in s.registry && key in t.registry ==>
                  |t.table| == |s.table| + 1 && t.registry == s.registry[key := |s.table|] &&
                  t.table[|s.table|].key == key && t.table[|s.table|].origin.OnDemand? && Queued(t, |s.table|))
  {
    hide Inv; hide Queued;
    var t := Apply(content, s, Step<E>.DemandCall(thread, key));
    if key !in s.registry && !s.closed && |s.registry| < s.maxInflight {
      NewItemIsQueued(t, Item(0, s.sequence, Some(|s.table|)), |s.table|);
    }
  }

  /** A caller inside `demand` is never stuck: it can read directly or return, or some worker
      can step towards the request it waits for. */
  lemma CallersGoOn<B, E>(content: L.Key -> B, s: State<B, E>, thread: nat, error: Option<E>) returns (step: Step<E>)
    requires Inv(content, s) && |s.workers| > 0 && thread in s.demanders
    ensures Enabled(s, step)
    ensures s.demanders[thread].Direct? ==> step == DirectRead(thread, error)
    ensures s.demanders[thread].Waiting? ==>
              var id := s.demanders[thread].id;
              id < |s.table| &&
              if s.table[id].future.Settled? then step == Step<E>.DemandReturn(thread) else step.Take? || step.Settle?
  {
    var d := s.demanders[thread];
    assert d.Waiting? ==> d.id < |s.table| by {
      hide TableOk; hide QueueOk; hide WorkersOk; hide ShutdownOk; hide RegistryOk;
    }
    hide Inv; hide IsLeast;
    if d.Direct? {
      step := DirectRead(thread, error);
    } else if s.table[d.id].future.Settled? {
      step := Step<E>.DemandReturn(thread);
    } else {
      step := PendingMakesProgress(content, s, d.id, error);
    }
  }

  // ----- shutdown -----

  function Below(n: nat): (r: set<nat>)
    ensures |r| == n
    ensures forall w: nat :: w in r <==> w < n
  {
    if n == 0 then {} else Below(n - 1) + {n - 1}
  }

  function ReadingWorkers(workers: seq<Worker>): set<nat> {
    set w: nat | w < |workers| && workers[w].Reading?
  }

  ghost predicate AllExited(workers: seq<Worker>) {
    forall w :: 0 <= w < |workers| ==> workers[w].Exited?
  }

  lemma OnlyStopsAreLeft<B, E>(s: State<B, E>)
    requires ShutdownOk(s) && |s.workers| > 0 && AllExited(s.workers)
    ensures s.closed && s.queue == {}
  {
    hide Below;
    assert ExitedWorkers(s.workers) == Below(|s.workers|);
    assert 0 in ExitedWorkers(s.workers);
    assert StopItems(s.queue) == {};
    forall i | i in s.queue ensures i in StopItems(s.queue) {
    }
  }

  lemma NothingLeftToSettle<B, E>(content: L.Key -> B, s: State<B, E>, id: nat)
    requires TableOk(content, s) && s.queue == {} && AllExited(s.workers) && id < |s.table|
    ensures s.table[id].future.Settled?
  {
    assert !OnItsWay(s, id);
  }

  /** When every worker has left, nothing is queued, every accepted request is settled, and
      every caller still waiting can return. */
  lemma CloseDrains<B, E>(content: L.Key -> B, s: State<B, E>)
    requires Inv(content, s) && |s.workers| > 0 && AllExited(s.workers)
    ensures s.closed && s.queue == {}
    ensures forall id :: 0 <= id < |s.table| ==> s.table[id].future.Settled?
    ensures forall t :: t in s.demanders && s.demanders[t].Waiting? ==> Enabled(s, Step<E>.DemandReturn(t))
  {
    hide RegistryOk; hide WorkersOk; hide QueueOk; hide TableOk; hide ShutdownOk; hide AllExited;
    OnlyStopsAreLeft(s);
    forall id | 0 <= id < |s.table| ensures s.table[id].future.Settled? {
      NothingLeftToSettle(content, s, id);
    }
  }

  lemma LeastOfTwo(item: Item, other: Item, rest: set<Item>)
    requires IsLeast(other, rest) && item !in rest && item.sequence != other.sequence
    ensures IsLeast(if Before(other, item) then other else item, rest + {item})
  {
  }

  lemma {:induction false} LeastExists(queue: set<Item>) returns (item: Item)
    requires queue != {} && UniqueSequence(queue)
    ensures IsLeast(item, queue)
    decreases |queue|
  {
    var one :| one in queue;
    item := one;
    var rest := queue - {one};
    assert queue == rest + {one};
    if rest == {} {
      assert queue == {one};
    } else {
      var other := LeastExists(rest);
      LeastOfTwo(one, other, rest);
      if Before(other, one) { item := other; }
    }
  }

  lemma SomeStopIsQueued<B, E>(s: State<B, E>, worker: nat)
    requires ShutdownOk(s) && s.closed && worker < |s.workers| && !s.workers[worker].Exited?
    ensures s.queue != {}
  {
    hide Below;
    var exited, others := ExitedWorkers(s.workers), Below(|s.workers|) - {worker};
    assert |others| == |s.workers| - 1;
    assert exited <= others;
    SubsetSize(exited, others);
    assert StopItems(s.queue) != {};
    var stop :| stop in StopItems(s.queue);
    assert stop in s.queue;
  }

  lemma LeastIsQueued(item: Item, queue: set<Item>)
    requires IsLeast(item, queue)
    ensures item in queue
  {
  }

  /** Some worker has a read to settle, or an idle one can take what is queued. */
  lemma WorkerCanStep<B, E>(content: L.Key -> B, s: State<B, E>, worker: nat, error: Option<E>) returns (step: Step<E>)
    requires Inv(content, s) && worker < |s.workers|
    requires s.workers[worker].Reading? || (s.workers[worker].Idle? && s.queue != {})
    ensures Enabled(s, step) && (step.Take? || step.Settle?)
  {
    hide TableOk; hide RegistryOk; hide CallersOk; hide ShutdownOk; hide IsLeast;
    if s.workers[worker].Reading? {
      step := Settle(worker, error);
    } else {
      var item := LeastExists(s.queue);
      assert item in s.queue by { LeastIsQueued(item, s.queue); }
      step := Take(worker, item);
    }
  }

  lemma QueuedKeepsWorkersIn<B, E>(s: State<B, E>, id: nat, worker: nat)
    requires ShutdownOk(s) && Queued(s, id) && worker < |s.workers|
    ensures !s.workers[worker].Exited? && s.queue != {}
  {
    var i :| i in s.queue && i.work == Some(id);
    assert s.workers[worker].Exited? ==> worker in ExitedWorkers(s.workers);
  }

  /** In every reachable state with an unsettled request some worker can step: a waiting
      demander is never left alone. */
  lemma PendingMakesProgress<B, E>(content: L.Key -> B, s: State<B, E>, id: nat, error: Option<E>) returns (step: Step<E>)
    requires Inv(content, s) && |s.workers| > 0 && id < |s.table| && s.table[id].future.Pending?
    ensures Enabled(s, step) && (step.Take? || step.Settle?)
  {
    assert OnItsWay(s, id);
    hide TableOk; hide RegistryOk; hide CallersOk; hide ShutdownOk; hide QueueOk; hide WorkersOk;
    if BeingRead(s, id) {
      var w :| 0 <= w < |s.workers| && s.workers[w] == Reading(id);
      step := WorkerCanStep(content, s, w, error);
    } else {
      QueuedKeepsWorkersIn(s, id, 0);
      step := WorkerCanStep(content, s, 0, error);
    }
  }

  /** After `close` the loader never gets stuck before every worker has left: some worker can
      step. */
  lemma ClosedMakesProgress<B, E>(content: L.Key -> B, s: State<B, E>, error: Option<E>) returns (step: Step<E>)
    requires Inv(content, s) && s.closed && !AllExited(s.workers)
    ensures Enabled(s, step) && (step.Take? || step.Settle?)
  {
    hide TableOk; hide RegistryOk; hide CallersOk; hide ShutdownOk; hide QueueOk; hide WorkersOk;
    var w :| 0 <= w < |s.workers| && !s.workers[w].Exited?;
    if !s.workers[w].Reading? { SomeStopIsQueued(s, w); }
    step := WorkerCanStep(content, s, w, error);
  }

  /** Two units for a queued item, one for a running read. */
  function Work<B, E>(s: State<B, E>): nat {
    2 * |s.queue| + |ReadingWorkers(s.workers)|
  }

  lemma TakeShrinks<B, E>(s: State<B, E>, t: State<B, E>, worker: nat, item: Item, now: Worker)
    requires item in s.queue && t.queue == s.queue - {item} && worker < |s.workers|
    requires t.workers == s.workers[worker := now]
    ensures Work(t) < Work(s)
  {
    var before, after := ReadingWorkers(s.workers), ReadingWorkers(t.workers);
    assert after <= before + {worker};
    SubsetSize(after, before + {worker});
  }

  lemma SettleShrinks<B, E>(s: State<B, E>, t: State<B, E>, worker: nat)
    requires t.queue == s.queue && worker < |s.workers| && s.workers[worker].Reading?
    requires t.workers == s.workers[worker := Idle]
    ensures Work(t) < Work(s)
  {
    assert worker in ReadingWorkers(s.workers);
    assert ReadingWorkers(t.workers) == ReadingWorkers(s.workers) - {worker};
  }

  /** After `close` no step adds work, and each step of a worker removes some: shutdown ends
      after finitely many steps of the workers. */
  lemma ClosedWorkShrinks<B, E>(content: L.Key -> B, s: State<B, E>, step: Step<E>)
    requires s.closed && Enabled(s, step)
    ensures var t := Apply(content, s, step);
            t.closed && Work(t) <= Work(s) && (step.Take? || step.Settle? ==> Work(t) < Work(s))
  {
    hide Stops; hide Work; hide IsLeast;
    var t := Apply(content, s, step);
    match step
    case Take(worker, item) =>
      LeastIsQueued(item, s.queue);
      TakeShrinks(s, t, worker, item, t.workers[worker]);
    case Settle(worker, _) => SettleShrinks(s, t, worker);
    case _ => SameWork(s, t);
  }

  function WorkerSteps<E>(steps: seq<Step<E>>): nat {
    if steps == [] then 0 else (if steps[0].Take? || steps[0].Settle? then 1 else 0) + WorkerSteps(steps[1..])
  }

  /** After `close` a run makes at most `Work` steps of workers, however it goes on. */
  lemma {:induction false} ClosedRunIsBounded<B, E>(content: L.Key -> B, s: State<B, E>, steps: seq<Step<E>>)
    requires s.closed && Runs(content, s, steps)
    ensures Final(content, s, steps).closed
    ensures WorkerSteps(steps) + Work(Final(content, s, steps)) <= Work(s)
    decreases |steps|
  {
    hide Apply; hide Enabled; hide Work;
    if steps != [] {
      ClosedWorkShrinks(content, s, steps[0]);
      ClosedRunIsBounded(content, Apply(content, s, steps[0]), steps[1..]);
    }
  }

  /** No worker can take or settle anything. */
  ghost predicate WorkersAreDone<B, E(!new)>(s: State<B, E>) {
    forall step: Step<E> :: Enabled(s, step) ==> !step.Take? && !step.Settle?
  }

  lemma DoneMeansExited<B, E(!new)>(content: L.Key -> B, s: State<B, E>)
    requires Inv(content, s) && s.closed && WorkersAreDone(s)
    ensures AllExited(s.workers)
  {
    hide Inv; hide Enabled; hide AllExited;
    if !AllExited(s.workers) {
      var step := ClosedMakesProgress<B, E>(content, s, None);
    }
  }

  lemma {:induction false} WorkersStay<B, E>(content: L.Key -> B, s: State<B, E>, steps: seq<Step<E>>)
    requires Runs(content, s, steps)
    ensures |Final(content, s, steps).workers| == |s.workers|
    decreases |steps|
  {
    if steps != [] { WorkersStay(content, Apply(content, s, steps[0]), steps[1..]); }
  }

  /** Shutdown as a whole: whatever callers and workers did before `close`, after it a run
      makes at most `Work` worker steps; and once no worker can step, all of them have left,
      the queue is empty, every accepted request is settled, and every caller can return. */
  lemma ShutdownDrains<B, E(!new)>(content: L.Key -> B, workers: nat, maxInflight: nat, before: seq<Step<E>>, after: seq<Step<E>>)
    requires workers > 0 && Runs(content, Init<B, E>(workers, maxInflight), before)
    requires Final(content, Init<B, E>(workers, maxInflight), before).closed
    requires Runs(content, Final(content, Init<B, E>(workers, maxInflight), before), after)
    ensures var s := Final(content, Init<B, E>(workers, maxInflight), before); WorkerSteps(after) <= Work(s)
    ensures var t := Final(content, Final(content, Init<B, E>(workers, maxInflight), before), after);
            WorkersAreDone(t) ==>
              && AllExited(t.workers) && t.queue == {}
              && (forall id :: 0 <= id < |t.table| ==> t.table[id].future.Settled?)
              && (forall d :: d in t.demanders && t.demanders[d].Waiting? ==> Enabled(t, Step<E>.DemandReturn(d)))
  {
    hide Inv; hide Runs; hide Final; hide Apply; hide Work; hide WorkerSteps; hide AllExited; hide WorkersAreDone;
    var s := Final(content, Init<B, E>(workers, maxInflight), before);
    var t := Final(content, s, after);
    EveryInterleavingIsSafe(content, workers, maxInflight, before);
    RunKeepsInv(content, s, after);
    ClosedRunIsBounded(content, s, after);
    WorkersStay(content, Init<B, E>(workers, maxInflight), before);
    WorkersStay(content, s, after);
    if WorkersAreDone(t) {
      DoneMeansExited(content, t);
      CloseDrains(content, t);
    }
  }

  lemma SameWork<B, E>(s: State<B, E>, t: State<B, E>)
    requires t.queue == s.queue && t.workers == s.workers
    ensures Work(t) == Work(s)
  {
  }

  // ----- the loader, one method per critical section -----

  class AsyncExpertLoader<B, E> {
    const content: L.Key -> B        // the bytes the reader finds for a key
    const maxInflight: nat
    var table: seq<Request<B, E>>
    var registry: map<L.Key, nat>
    var queue: set<Item>
    var sequence: nat
    var workers: seq<Worker>
    var demanders: map<nat, Demander>
    var closed: bool
    var returned: seq<Return<B, E>>

    ghost function Now(): State<B, E>
      reads this
    {
      State(maxInflight, table, registry, queue, sequence, workers, demanders, closed, returned)
    }

    ghost predicate Valid()
      reads this
    {
      Inv(content, Now())
    }

    constructor (content: L.Key -> B, workerCount: nat, maxInflight: nat)
      requires 0 < workerCount <= maxInflight
      ensures Valid() && Now() == Init(workerCount, maxInflight) && this.content == content
    {
      this.content, this.maxInflight := content, maxInflight;
      table, registry, queue, sequence, demanders, closed, returned := [], map[], {}, 0, map[], false, [];
      workers := seq(workerCount, _ => Idle);
      new;
      InitInv<B, E>(content, workerCount, maxInflight);
    }

    /** `_submit_locked`. */
    method SubmitLocked(key: L.Key, origin: Origin) returns (id: nat)
      modifies this
      ensures Now() == Submit(old(Now()), key, origin) && id == old(|table|)
    {
      id := |table|;
      table := table + [Request(key, origin, Pending, 0)];
      registry := registry[key := id];
      queue := queue + {Item(Priority(origin), sequence, Some(id))};
      sequence := sequence + 1;
    }

    /** `prefetch`. */
    method PrefetchBundle(key: L.Key, origin: Origin) returns (accepted: bool)
      requires Valid() && !origin.OnDemand?
      modifies this
      ensures Valid() && Now() == AfterPrefetch(old(Now()), key, origin)
      ensures accepted <==> key in registry
    {
      hide Inv;
      StepKeepsInv(content, Now(), PrefetchCall(key, origin));
      if key in registry {
        return true;
      }
      if closed || |registry| >= maxInflight {
        return false;
      }
      var _ := SubmitLocked(key, origin);
      accepted := true;
    }

    /** The first critical section of `demand`. */
    method EnterDemand(thread: nat, key: L.Key)
      requires Valid() && thread !in demanders
      modifies this
      ensures Valid() && Now() == AfterDemand(old(Now()), thread, key)
    {
      hide Inv;
      StepKeepsInv(content, Now(), DemandCall(thread, key));
      if key in registry {
        demanders := demanders[thread := Waiting(key, registry[key])];
      } else if closed {
        returned := returned + [Return(key, ClosedError)];
      } else if |registry| >= maxInflight {
        demanders := demanders[thread := Direct(key)];
      } else {
        var id := SubmitLocked(key, OnDemand);
        demanders := demanders[thread := Waiting(key, id)];
      }
    }

    /** The second one, once the future is settled: pop the registered request if it is still
        the caller's own. */
    method LeaveDemand(thread: nat)
      requires Valid() && Enabled(Now(), Step<E>.DemandReturn(thread))
      modifies this
      ensures Valid() && Now() == AfterReturn(old(Now()), thread, old(demanders[thread]))
    {
      hide Inv;
      StepKeepsInv(content, Now(), Step<E>.DemandReturn(thread));
      var d := demanders[thread];
      if d.key in registry && registry[d.key] == d.id {
        registry := registry - {d.key};
      }
      demanders := demanders - {thread};
      returned := returned + [Return(d.key, table[d.id].future.result)];
    }

    /** The direct read of a demand that found no slot. */
    method ReadDirect(thread: nat, error: Option<E>)
      requires Valid() && thread in demanders && demanders[thread].Direct?
      modifies this
      ensures Valid() && Now() == AfterDirect(content, old(Now()), thread, old(demanders[thread].key), error)
      ensures returned == old(returned) + [returned[|returned| - 1]]
      ensures Carries(content, returned[|returned| - 1].result, old(demanders[thread].key), error)
    {
      hide Inv;
      StepKeepsInv(content, Now(), DirectRead(thread, error));
      var key := demanders[thread].key;
      demanders := demanders - {thread};
      returned := returned + [Return(key, match error case None => Ok(content(key)) case Some(e) => Failed(e))];
    }

    /** A worker's queue get: the least item of the priority queue. */
    method TakeItem(worker: nat, item: Item)
      requires Valid() && worker < |workers| && workers[worker].Idle? && IsLeast(item, queue)
      modifies this
      ensures Valid() && (item.work.Some? ==> item.work.value < |old(table)|)
      ensures Now() == if item.work.None? then AfterStop(old(Now()), worker, item)
                       else AfterTake(old(Now()), worker, item, item.work.value)
    {
      TakeStaysSafe(content, Now(), worker, item);
      hide Inv; hide IsLeast;
      if item.work.None? {
        StopWorker(worker, item);
      } else {
        StartReading(worker, item, item.work.value);
      }
    }

    method StopWorker(worker: nat, item: Item)
      requires worker < |workers|
      modifies this
      ensures Now() == AfterStop(old(Now()), worker, item)
    {
      queue := queue - {item};
      workers := workers[worker := Exited];
    }

    method StartReading(worker: nat, item: Item, id: nat)
      requires worker < |workers| && id < |table|
      modifies this
      ensures Now() == AfterTake(old(Now()), worker, item, id)
    {
      queue := queue - {item};
      workers := workers[worker := Reading(id)];
      table := table[id := table[id].(timesRead := table[id].timesRead + 1)];
    }

    /** The end of a worker's read: the future gets the bytes or the reader's error. */
    method SettleFuture(worker: nat, error: Option<E>)
      requires Valid() && worker < |workers| && workers[worker].Reading?
      modifies this`table, this`workers
      ensures Valid() && old(workers[worker].id) < |old(table)|
      ensures Now() == AfterSettle(content, old(Now()), worker, old(workers[worker].id), error)
      ensures var r := table[old(workers[worker].id)];
              r.future.Settled? && Carries(content, r.future.result, r.key, error)
    {
      ReaderHasRequest(content, Now(), worker);
      SettleKeepsInv(content, Now(), worker, workers[worker].id, error);
      hide Inv;
      FinishRead(worker, workers[worker].id, error);
    }

    method FinishRead(worker: nat, id: nat, error: Option<E>)
      requires worker < |workers| && id < |table|
      modifies this`table, this`workers
      ensures Now() == AfterSettle(content, old(Now()), worker, id, error)
    {
      var result := match error case None => Ok(content(table[id].key)) case Some(e) => Failed(e);
      table := table[id := table[id].(future := Settled(result))];
      workers := workers[worker := Idle];
    }

    /** The critical section of `close`. */
    method CloseLoader()
      requires Valid()
      modifies this
      ensures Valid() && Now() == AfterClose(old(Now()))
    {
      hide Stops; hide Inv;
      CloseKeepsInv(content, Now());
      if closed {
        return;
      }
      closed := true;
      PutStops();
    }

    /** One stop token per worker, behind everything queued so far. */
    method PutStops()
      modifies this`queue, this`sequence
      ensures queue == old(queue) + Stops(old(sequence), |workers|) && sequence == old(sequence) + |workers|
    {
      hide Stops;
      ghost var base, before := sequence, queue;
      NoStops(before, base);
      for i := 0 to |workers|
        invariant queue == before + Stops(base, i) && sequence == base + i
      {
        MoreStops(before, base, i);
        queue := queue + {Item(STOP_PRIORITY, sequence, None)};
        sequence := sequence + 1;
      }
    }
  }

  lemma TakeStaysSafe<B, E>(content: L.Key -> B, s: State<B, E>, worker: nat, item: Item)
    requires Inv(content, s) && worker < |s.workers| && s.workers[worker].Idle? && IsLeast(item, s.queue)
    ensures item.work.None? ==> Inv(content, AfterStop(s, worker, item))
    ensures item.work.Some? ==>
              item.work.value < |s.table| && Inv(content, AfterTake(s, worker, item, item.work.value))
  {
    hide Inv;
    if item.work.None? {
      StopKeepsInv(content, s, worker, item);
    } else {
      LeastIsQueued(item, s.queue);
      hide IsLeast;
      TakeKeepsInv(content, s, worker, item, item.work.value);
    }
  }

  lemma ReaderHasRequest<B, E>(content: L.Key -> B, s: State<B, E>, worker: nat)
    requires Inv(content, s) && worker < |s.workers| && s.workers[worker].Reading?
    ensures s.workers[worker].id < |s.table|
  {
  }

  lemma NoStops(queue: set<Item>, base: nat)
    ensures queue == queue + Stops(base, 0)
  {
  }

  lemma MoreStops(queue: set<Item>, base: nat, i: nat)
    ensures queue + Stops(base, i + 1) == queue + Stops(base, i) + {Item(STOP_PRIORITY, base + i, None)}
  {
    hide Stops;
    StopsStep(base, i);
  }

  lemma StopsStep(base: nat, i: nat)
    ensures Stops(base, i + 1) == Stops(base, i) + {Item(STOP_PRIORITY, base + i, None)}
  {
  }
}
