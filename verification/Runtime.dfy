/** The cached runtime: resolving, pinning and releasing experts layer by layer. The bytes
    of a bundle and its materialized arrays are functions of the key, as the manifest has it. */
module Runtime {
  import L = LruPolicy
  import C = ResidentCache

  /** Byte size of every routed bundle. */
  type Manifest = map<L.Key, nat>
  type Load<!A> = L.Key -> A

  datatype Runtime<+A> = Runtime(cache: C.State<A>, batchPins: seq<L.Key>, resolutions: nat)

  datatype Outcome = Returned | ComputeFailed | UnknownExpert | ReaderFailed | CacheRaised(status: C.Status)

  /** The state after a call, how it ended, and the arrays handed to the backend. */
  datatype Ran<+A> = Ran(rt: Runtime<A>, outcome: Outcome, used: C.Option<A>)

  /** `_resolve_resident`. `readOk` says whether the store delivers the bundle. */
  function Resolve<A>(manifest: Manifest, load: Load<A>, rt: Runtime<A>, key: L.Key, readOk: bool): Ran<A> {
    if key !in manifest then Ran(rt, UnknownExpert, C.None)
    else
      var got := C.Get(rt.cache, key, manifest[key]);
      var after := rt.(cache := got.state);
      if got.status.Hit? then
        Ran(after.(resolutions := rt.resolutions + 1), Returned,
            C.Some(rt.cache.entries[C.Find(rt.cache.entries, key)].arrays))
      else if !got.status.Miss? then Ran(after, CacheRaised(got.status), C.None)
      else
        var reserved := C.Reserve(got.state, manifest[key]);
        if !reserved.status.Done? then
          Ran(rt.(cache := reserved.state), CacheRaised(reserved.status), C.None)
        else if !readOk then Ran(rt.(cache := reserved.state), ReaderFailed, C.None)
        else
          var admitted := C.Admit(reserved.state, key, load(key), manifest[key]);
          if !admitted.status.Done? then
            Ran(rt.(cache := admitted.state), CacheRaised(admitted.status), C.None)
          else
            Ran(rt.(cache := admitted.state, resolutions := rt.resolutions + 1), Returned, C.Some(load(key)))
  }

  /** `execute` and `execute_group`: resolve, pin, compute; a failed computation takes its
      pin back. */
  function Execute<A>(manifest: Manifest, load: Load<A>, rt: Runtime<A>, key: L.Key, readOk: bool, computeOk: bool)
    : Ran<A>
  {
    var resolved := Resolve(manifest, load, rt, key, readOk);
    if !resolved.outcome.Returned? then resolved
    else
      var pinned := C.Pin(resolved.rt.cache, key);
      var after := resolved.rt.(cache := pinned.state);
      if !pinned.status.Done? then Ran(after, CacheRaised(pinned.status), resolved.used)
      else if computeOk then Ran(after.(batchPins := rt.batchPins + [key]), Returned, resolved.used)
      else
        var unpinned := C.Unpin(pinned.state, key);
        Ran(after.(cache := unpinned.state),
            if unpinned.status.Done? then ComputeFailed else CacheRaised(unpinned.status), resolved.used)
  }

  datatype Released<+A> = Released(rt: Runtime<A>, status: C.Status)

  /** `_release_batch_pins`: pop and unpin until none is left. */
  function Release<A>(rt: Runtime<A>): Released<A>
    decreases |rt.batchPins|
  {
    if rt.batchPins == [] then Released(rt, C.Done)
    else
      var n := |rt.batchPins| - 1;
      var unpinned := C.Unpin(rt.cache, rt.batchPins[n]);
      var after := rt.(cache := unpinned.state, batchPins := rt.batchPins[..n]);
      if unpinned.status.Done? then Release(after) else Released(after, unpinned.status)
  }

  // ----- the invariant of the pins -----

  ghost predicate ValidManifest(manifest: Manifest) {
    forall k :: k in manifest ==> manifest[k] > 0
  }

  ghost predicate Exact<A>(manifest: Manifest, load: Load<A>, e: C.Resident<A>) {
    e.key in manifest && e.nbytes == manifest[e.key] && e.arrays == load(e.key)
  }

  /** Every resident entry is the manifest's bundle, its pin count is its multiplicity among
      the batch pins, and whatever is pinned is resident. */
  ghost predicate Accounted<A>(manifest: Manifest, load: Load<A>, entries: seq<C.Resident<A>>, pins: multiset<L.Key>) {
    && (forall e :: e in entries ==> Exact(manifest, load, e) && e.pins == pins[e.key])
    && (forall k :: k in pins ==> C.Holds(entries, k))
  }

  ghost predicate Inv<A>(manifest: Manifest, load: Load<A>, rt: Runtime<A>) {
    C.Sound(rt.cache) && Accounted(manifest, load, rt.cache.entries, multiset(rt.batchPins))
  }

  lemma HoldsIff<A>(entries: seq<C.Resident<A>>, key: L.Key)
    ensures C.Holds(entries, key) <==> exists e :: e in entries && e.key == key
  {
    if C.Holds(entries, key) { assert entries[C.Find(entries, key)] in entries; }
  }

  lemma MovedMembers<A>(entries: seq<C.Resident<A>>, i: nat, moved: C.Resident<A>, after: seq<C.Resident<A>>)
    requires i < |entries| && C.Distinct(entries) && moved.key == entries[i].key
    requires after == C.Drop(entries, i) + [moved]
    ensures forall e :: e in after <==> e == moved || (e in entries && e.key != moved.key)
  {
    C.DropMembers(entries, i);
    forall j | 0 <= j < |entries| && j != i ensures entries[j].key != entries[i].key {
      assert C.Erase(entries)[j].key != C.Erase(entries)[i].key;
    }
  }

  lemma MoveKeepsAccount<A>(manifest: Manifest, load: Load<A>, entries: seq<C.Resident<A>>, i: nat,
                            moved: C.Resident<A>, pins: multiset<L.Key>, after: multiset<L.Key>)
    requires i < |entries| && C.Distinct(entries) && Accounted(manifest, load, entries, pins)
    requires moved == entries[i].(pins := after[moved.key])
    requires after == pins[moved.key := after[moved.key]]
    ensures Accounted(manifest, load, C.Drop(entries, i) + [moved], after)
  {
    hide C.Find; hide C.Distinct; hide C.Erase; hide C.Drop; hide C.Holds;
    var list := C.Drop(entries, i) + [moved];
    MovedMembers(entries, i, moved, list);
    assert entries[i] in entries;
    assert Exact(manifest, load, entries[i]);
    forall k | k in after ensures C.Holds(list, k) {
      HoldsIff(list, k);
      HoldsIff(entries, k);
      if k == moved.key { assert moved in list; }
    }
    assert Accounted(manifest, load, list, after);
  }

  lemma PinAccount<A>(manifest: Manifest, load: Load<A>, state: C.State<A>, key: L.Key, pins: multiset<L.Key>)
    requires C.Sound(state) && Accounted(manifest, load, state.entries, pins) && C.Holds(state.entries, key)
    ensures C.Pin(state, key).status.Done? && C.Sound(C.Pin(state, key).state)
    ensures Accounted(manifest, load, C.Pin(state, key).state.entries, pins + multiset{key})
  {
    hide C.Find; hide C.Distinct; hide C.Erase; hide C.Drop;
    C.LookupsStaySound(state, key, 0);
    var i := C.Find(state.entries, key);
    var e := state.entries[i];
    assert e in state.entries;
    MoveKeepsAccount(manifest, load, state.entries, i, e.(pins := e.pins + 1), pins, pins + multiset{key});
  }

  lemma UnpinAccount<A>(manifest: Manifest, load: Load<A>, state: C.State<A>, key: L.Key, pins: multiset<L.Key>)
    requires C.Sound(state) && Accounted(manifest, load, state.entries, pins) && key in pins
    ensures C.Unpin(state, key).status.Done? && C.Sound(C.Unpin(state, key).state)
    ensures Accounted(manifest, load, C.Unpin(state, key).state.entries, pins - multiset{key})
  {
    hide C.Find; hide C.Distinct; hide C.Erase;
    C.LookupsStaySound(state, key, 0);
    var i := C.Find(state.entries, key);
    var e := state.entries[i];
    assert e in state.entries;
    var after := state.entries[i := e.(pins := e.pins - 1)];
    OthersKeptInPlace(state.entries, i, e.(pins := e.pins - 1));
    forall k | k in pins - multiset{key} ensures C.Holds(after, k) {
      HoldsIff(after, k);
      HoldsIff(state.entries, k);
      if k == key { assert after[i] in after; }
    }
  }

  lemma OthersKeptInPlace<A>(entries: seq<C.Resident<A>>, i: nat, changed: C.Resident<A>)
    requires i < |entries| && C.Distinct(entries) && changed.key == entries[i].key
    ensures forall e :: e in entries[i := changed] <==> e == changed || (e in entries && e.key != changed.key)
  {
    var after := entries[i := changed];
    forall j | 0 <= j < |entries| && j != i ensures entries[j].key != entries[i].key && after[j] == entries[j] {
      assert C.Erase(entries)[j].key != C.Erase(entries)[i].key;
    }
    forall e | e == changed || (e in entries && e.key != changed.key) ensures e in after {
      if e == changed {
        assert after[i] == e;
      } else {
        var j :| 0 <= j < |entries| && entries[j] == e;
        assert after[j] == e;
      }
    }
  }

  lemma EvictAccount<A>(manifest: Manifest, load: Load<A>, entries: seq<C.Resident<A>>, room: int,
                        pins: multiset<L.Key>)
    requires C.Distinct(entries) && Accounted(manifest, load, entries, pins)
    ensures Accounted(manifest, load, C.Evict(entries, room), pins)
  {
    hide C.Evict; hide C.Find; hide C.Distinct; hide C.Bytes;
    C.EvictSound(entries, room);
    forall k | k in pins ensures C.Holds(C.Evict(entries, room), k) {
      HoldsIff(entries, k);
      HoldsIff(C.Evict(entries, room), k);
    }
  }

  lemma AdmitAccount<A>(manifest: Manifest, load: Load<A>, state: C.State<A>, key: L.Key, pins: multiset<L.Key>)
    requires C.Sound(state) && Accounted(manifest, load, state.entries, pins)
    requires key in manifest && manifest[key] > 0 && !C.Holds(state.entries, key)
    requires C.Bytes(state.entries) + manifest[key] <= state.capacity
    ensures var admitted := C.Admit(state, key, load(key), manifest[key]);
            admitted.status.Done? && C.Sound(admitted.state) &&
            admitted.state.capacity == state.capacity &&
            admitted.state.entries == state.entries + [C.Resident(key, load(key), manifest[key], 0)] &&
            Accounted(manifest, load, admitted.state.entries, pins) && C.Holds(admitted.state.entries, key)
  {
    hide C.Find; hide C.Distinct; hide C.Bytes; hide C.Erase;
    C.AdmitStaysSound(state, key, load(key), manifest[key]);
    EvictNothing(state.entries, state.capacity - manifest[key]);
    var e := C.Resident(key, load(key), manifest[key], 0);
    var after := state.entries + [e];
    forall k ensures C.Holds(after, k) <==> C.Holds(state.entries, k) || k == key {
      HoldsIff(after, k);
      HoldsIff(state.entries, k);
      assert e in after;
    }
    assert key !in pins;
  }

  lemma EvictNothing<A>(entries: seq<C.Resident<A>>, room: int)
    requires C.Bytes(entries) <= room
    ensures C.Evict(entries, room) == entries
  {
  }

  /** A miss that finds room evicts and then admits; the reserve inside admit is idle. */
  lemma MissAccount<A>(manifest: Manifest, load: Load<A>, state: C.State<A>, key: L.Key, pins: multiset<L.Key>)
    requires C.Sound(state) && Accounted(manifest, load, state.entries, pins)
    requires key in manifest && manifest[key] > 0 && !C.Holds(state.entries, key)
    ensures var reserved := C.Reserve(state, manifest[key]);
            C.Sound(reserved.state) && Accounted(manifest, load, reserved.state.entries, pins) &&
            reserved.state.capacity == state.capacity && !C.Holds(reserved.state.entries, key) &&
            (reserved.status.Done? ==> C.Bytes(reserved.state.entries) + manifest[key] <= state.capacity)
  {
    hide C.Find; hide C.Distinct; hide C.Bytes; hide C.Erase; hide C.Evict;
    C.AdmitStaysSound(state, key, load(key), manifest[key]);
    var room := state.capacity - manifest[key];
    EvictAccount(manifest, load, state.entries, room, pins);
    C.EvictSound(state.entries, room);
    HoldsIff(state.entries, key);
    HoldsIff(C.Evict(state.entries, room), key);
  }

  /** Resolving keeps the account, and hands out the manifest's bundle and nothing else. */
  lemma ResolveKeepsInv<A>(manifest: Manifest, load: Load<A>, rt: Runtime<A>, key: L.Key, readOk: bool)
    requires ValidManifest(manifest) && Inv(manifest, load, rt)
    ensures var ran := Resolve(manifest, load, rt, key, readOk);
            Inv(manifest, load, ran.rt) && ran.rt.batchPins == rt.batchPins &&
            ran.rt.cache.capacity == rt.cache.capacity && !ran.outcome.ComputeFailed? &&
            (ran.outcome.Returned? ==> ran.used == C.Some(load(key)) && C.Holds(ran.rt.cache.entries, key))
  {
    hide C.Find; hide C.Distinct; hide C.Bytes; hide C.Erase; hide C.Reserve; hide C.Admit; hide C.Drop; hide Accounted;
    if key in manifest {
      var got := C.Get(rt.cache, key, manifest[key]);
      C.LookupsStaySound(rt.cache, key, manifest[key]);
      var i := C.Find(rt.cache.entries, key);
      if i < |rt.cache.entries| {
        HitIsExact(manifest, load, rt, i);
        MoveHit(manifest, load, rt, i);
      } else {
        MissAccount(manifest, load, got.state, key, multiset(rt.batchPins));
        var reserved := C.Reserve(got.state, manifest[key]);
        if reserved.status.Done? {
          AdmitAccount(manifest, load, reserved.state, key, multiset(rt.batchPins));
        }
      }
    }
  }

  lemma HitIsExact<A>(manifest: Manifest, load: Load<A>, rt: Runtime<A>, i: nat)
    requires Inv(manifest, load, rt) && i < |rt.cache.entries|
    ensures Exact(manifest, load, rt.cache.entries[i])
    ensures rt.cache.entries[i].pins == multiset(rt.batchPins)[rt.cache.entries[i].key]
  {
    assert rt.cache.entries[i] in rt.cache.entries;
  }

  lemma MoveHit<A>(manifest: Manifest, load: Load<A>, rt: Runtime<A>, i: nat)
    requires Inv(manifest, load, rt) && i < |rt.cache.entries|
    ensures var e := rt.cache.entries[i];
            var moved := C.Drop(rt.cache.entries, i) + [e];
            Accounted(manifest, load, moved, multiset(rt.batchPins)) && C.Holds(moved, e.key)
  {
    hide C.Find; hide C.Distinct; hide C.Erase; hide C.Drop;
    var e := rt.cache.entries[i];
    HitIsExact(manifest, load, rt, i);
    MoveKeepsAccount(manifest, load, rt.cache.entries, i, e, multiset(rt.batchPins), multiset(rt.batchPins));
    var moved := C.Drop(rt.cache.entries, i) + [e];
    HoldsIff(moved, e.key);
    assert e in moved;
  }

  /** Executing keeps the account: a returned call leaves one more pin, any other none. The
      arrays used are always exactly the expert's. */
  lemma ExecuteKeepsInv<A>(manifest: Manifest, load: Load<A>, rt: Runtime<A>, key: L.Key, readOk: bool,
                           computeOk: bool)
    requires ValidManifest(manifest) && Inv(manifest, load, rt)
    ensures var ran := Execute(manifest, load, rt, key, readOk, computeOk);
            Inv(manifest, load, ran.rt) && ran.rt.cache.capacity == rt.cache.capacity &&
            ran.rt.batchPins == rt.batchPins + (if ran.outcome.Returned? then [key] else []) &&
            (ran.outcome.Returned? || ran.outcome.ComputeFailed? ==> ran.used == C.Some(load(key)))
  {
    hide C.Find; hide C.Distinct; hide C.Bytes; hide C.Erase; hide Accounted; hide Resolve; hide C.Pin; hide C.Unpin;
    ResolveKeepsInv(manifest, load, rt, key, readOk);
    var resolved := Resolve(manifest, load, rt, key, readOk);
    if resolved.outcome.Returned? {
      var pins := multiset(rt.batchPins);
      PinAccount(manifest, load, resolved.rt.cache, key, pins);
      assert multiset(rt.batchPins + [key]) == pins + multiset{key};
      PinKeepsCapacity(resolved.rt.cache, key);
      if !computeOk {
        var pinned := C.Pin(resolved.rt.cache, key).state;
        UnpinAccount(manifest, load, pinned, key, pins + multiset{key});
        assert pins + multiset{key} - multiset{key} == pins;
        PinKeepsCapacity(pinned, key);
      }
    }
    assert rt.batchPins + [] == rt.batchPins;
  }

  lemma PinKeepsCapacity<A>(state: C.State<A>, key: L.Key)
    ensures C.Pin(state, key).state.capacity == state.capacity
    ensures C.Unpin(state, key).state.capacity == state.capacity
    ensures C.Pin(state, key).state.counters == state.counters
    ensures C.Unpin(state, key).state.counters == state.counters
    ensures C.Erase(C.Unpin(state, key).state.entries) == C.Erase(state.entries)
  {
    hide C.Find;
    var i := C.Find(state.entries, key);
    if i < |state.entries| && state.entries[i].pins > 0 {
      var e := state.entries[i];
      C.SamePinFree(state.entries, i, e.(pins := e.pins - 1));
    }
  }

  /** Releasing never fails, leaves no pin anywhere, and changes nothing the pin-free view sees. */
  lemma {:induction false} ReleaseSucceeds<A>(manifest: Manifest, load: Load<A>, rt: Runtime<A>)
    requires Inv(manifest, load, rt)
    ensures var released := Release(rt);
            released.status.Done? && Inv(manifest, load, released.rt) && released.rt.batchPins == [] &&
            (forall e :: e in released.rt.cache.entries ==> e.pins == 0) &&
            C.Erase(released.rt.cache.entries) == C.Erase(rt.cache.entries) &&
            released.rt.cache.counters == rt.cache.counters &&
            released.rt.cache.capacity == rt.cache.capacity && released.rt.resolutions == rt.resolutions
    decreases |rt.batchPins|
  {
    hide C.Find; hide C.Distinct; hide C.Bytes; hide C.Unpin; hide C.Erase;
    if rt.batchPins != [] {
      var n := |rt.batchPins| - 1;
      assert rt.batchPins == rt.batchPins[..n] + [rt.batchPins[n]];
      assert multiset(rt.batchPins) - multiset{rt.batchPins[n]} == multiset(rt.batchPins[..n]);
      UnpinAccount(manifest, load, rt.cache, rt.batchPins[n], multiset(rt.batchPins));
      PinKeepsCapacity(rt.cache, rt.batchPins[n]);
      ReleaseSucceeds(manifest, load,
                      rt.(cache := C.Unpin(rt.cache, rt.batchPins[n]).state, batchPins := rt.batchPins[..n]));
    }
  }

  // ----- the mirror: the same accesses on the pin-free simulator -----

  /** Pinned entries are the most recently used ones. */
  ghost predicate PinnedSuffix<A>(entries: seq<C.Resident<A>>) {
    forall i, j :: 0 <= i < j < |entries| && entries[i].pins > 0 ==> entries[j].pins > 0
  }

  ghost predicate Mirrors<A>(cache: C.State<A>, sim: L.Cache) {
    && sim.capacity == cache.capacity && sim.entries == C.Erase(cache.entries)
    && sim.counters == L.Counters(cache.counters.lookups, cache.counters.hits, cache.counters.misses,
                                  cache.counters.byteHits, cache.counters.byteMisses, cache.counters.evictions)
  }

  /** With pins at the recent end, evicting around pins sheds the same victims as plain LRU. */
  lemma {:induction false} EvictIsShed<A>(entries: seq<C.Resident<A>>, room: nat)
    requires PinnedSuffix(entries) && C.Bytes(C.Evict(entries, room)) <= room
    ensures C.Erase(C.Evict(entries, room)) == L.Shed(C.Erase(entries), room)
    ensures PinnedSuffix(C.Evict(entries, room))
    decreases |entries|
  {
    hide C.Erase; hide C.FirstUnpinned;
    var i := C.FirstUnpinned(entries);
    if C.Bytes(entries) > room {
      assert i == 0;
      assert C.Drop(entries, 0) == entries[1..];
      assert C.Erase(entries[1..]) == C.Erase(entries)[1..] by { EraseTail(entries); }
      EvictIsShed(entries[1..], room);
    }
  }

  lemma EraseTail<A>(entries: seq<C.Resident<A>>)
    requires entries != []
    ensures C.Erase(entries[1..]) == C.Erase(entries)[1..]
  {
  }

  function PinnedBytes<A>(entries: seq<C.Resident<A>>): nat {
    if entries == [] then 0
    else (if entries[0].pins > 0 then entries[0].nbytes else 0) + PinnedBytes(entries[1..])
  }

  lemma {:induction false} PinnedBytesDrop<A>(entries: seq<C.Resident<A>>, i: nat)
    requires i < |entries| && entries[i].pins == 0
    ensures PinnedBytes(C.Drop(entries, i)) == PinnedBytes(entries)
  {
    if i == 0 {
      assert C.Drop(entries, 0) == entries[1..];
    } else {
      assert C.Drop(entries, i)[1..] == C.Drop(entries[1..], i - 1);
      PinnedBytesDrop(entries[1..], i - 1);
    }
  }

  lemma {:induction false} PinnedAtMostAll<A>(entries: seq<C.Resident<A>>)
    ensures PinnedBytes(entries) <= C.Bytes(entries)
    ensures C.FirstUnpinned(entries) == |entries| ==> PinnedBytes(entries) == C.Bytes(entries)
  {
    if entries != [] {
      EraseTail(entries);
      PinnedAtMostAll(entries[1..]);
      forall j | 0 <= j < |entries[1..]| && C.FirstUnpinned(entries) == |entries| ensures entries[1..][j].pins > 0 {
        assert entries[1..][j] == entries[j + 1];
      }
    }
  }

  /** Eviction reaches its goal exactly when the pinned entries alone leave enough room. */
  lemma {:induction false} EvictReachesIff<A>(entries: seq<C.Resident<A>>, room: int)
    ensures C.Bytes(C.Evict(entries, room)) <= room <==> PinnedBytes(entries) <= room
    decreases |entries|
  {
    hide C.Bytes; hide C.FirstUnpinned; hide C.Drop;
    PinnedAtMostAll(entries);
    var i := C.FirstUnpinned(entries);
    if C.Bytes(entries) > room && i < |entries| {
      PinnedBytesDrop(entries, i);
      C.DropLength(entries, i);
      EvictReachesIff(C.Drop(entries, i), room);
    }
  }

  /** Exactly when a call raises, and which exception: the size alone, or the size together
      with the bundles still in flight, is too large for the budget. */
  lemma ExecuteRaisesIff<A>(manifest: Manifest, load: Load<A>, rt: Runtime<A>, key: L.Key, readOk: bool,
                            computeOk: bool)
    requires ValidManifest(manifest) && Inv(manifest, load, rt)
    ensures var outcome := Execute(manifest, load, rt, key, readOk, computeOk).outcome;
            var missing := key in manifest && !C.Holds(rt.cache.entries, key);
            && (outcome.UnknownExpert? <==> key !in manifest)
            && (outcome == CacheRaised(C.OverCapacity) <==> missing && manifest[key] > rt.cache.capacity)
            && (outcome == CacheRaised(C.PinnedExhausted) <==>
                  missing && manifest[key] <= rt.cache.capacity &&
                  PinnedBytes(rt.cache.entries) + manifest[key] > rt.cache.capacity)
            && (outcome.CacheRaised? ==> outcome.status.OverCapacity? || outcome.status.PinnedExhausted?)
            && (outcome.ReaderFailed? <==>
                  missing && PinnedBytes(rt.cache.entries) + manifest[key] <= rt.cache.capacity && !readOk)
  {
    hide C.Find; hide C.Distinct; hide C.Bytes; hide C.Erase; hide C.Evict; hide C.Pin; hide C.Unpin; hide C.Admit;
    hide PinnedBytes; hide Accounted; hide C.Drop;
    ResolveKeepsInv(manifest, load, rt, key, readOk);
    var resolved := Resolve(manifest, load, rt, key, readOk);
    if resolved.outcome.Returned? {
      PinAccount(manifest, load, resolved.rt.cache, key, multiset(rt.batchPins));
      UnpinAccount(manifest, load, C.Pin(resolved.rt.cache, key).state, key, multiset(rt.batchPins) + multiset{key});
    }
    if key in manifest {
      var got := C.Get(rt.cache, key, manifest[key]);
      var i := C.Find(rt.cache.entries, key);
      if i < |rt.cache.entries| {
        HitIsExact(manifest, load, rt, i);
      } else {
        EvictReachesIff(rt.cache.entries, rt.cache.capacity - manifest[key]);
        MissAccount(manifest, load, got.state, key, multiset(rt.batchPins));
        var reserved := C.Reserve(got.state, manifest[key]);
        if reserved.status.Done? {
          AdmitAccount(manifest, load, reserved.state, key, multiset(rt.batchPins));
        }
      }
    }
  }

  /** Exactly when an operation of the cache raises. A lookup raises for a negative size or one
      that is neither zero nor the resident one; an admission for a size that is not positive,
      not the resident one, over the capacity, or too large beside the pinned bytes; shrinking
      for a bound that is out of range or under the pinned bytes, and it sets the capacity
      only when it succeeds. */
  lemma CacheRaisesIff<A>(state: C.State<A>, e: C.Resident<A>, nbytes: int, arrays: A)
    requires C.Sound(state) && e in state.entries
    ensures var status := C.Get(state, e.key, nbytes).status;
            && (status.BadArgument? <==> nbytes < 0) && (status.Hit? <==> nbytes == 0 || nbytes == e.nbytes)
            && (status.SizeMismatch? <==> nbytes > 0 && nbytes != e.nbytes)
    ensures var admitted := C.Admit(state, e.key, arrays, nbytes);
            && admitted.state == state && (admitted.status.Done? <==> nbytes > 0 && nbytes == e.nbytes)
            && (admitted.status.BadArgument? <==> nbytes <= 0)
            && (admitted.status.SizeMismatch? <==> nbytes > 0 && nbytes != e.nbytes)
    ensures C.Unpin(state, e.key).status == if e.pins > 0 then C.Done else C.NotPinned
    ensures C.Pin(state, e.key).status.Done?
  {
    hide L.Find; hide L.Total;
    var i :| 0 <= i < |state.entries| && state.entries[i] == e;
    C.DistinctFind(state.entries, i);
    SizesAreSmall(state.entries, i);
  }

  lemma SizesAreSmall<A>(entries: seq<C.Resident<A>>, i: nat)
    requires i < |entries|
    ensures entries[i].nbytes <= C.Bytes(entries)
  {
    C.DropBytes(entries, i);
  }

  lemma AbsentRaisesIff<A>(state: C.State<A>, key: L.Key, nbytes: int, arrays: A)
    requires C.Sound(state) && forall e :: e in state.entries ==> e.key != key
    ensures C.Get(state, key, nbytes).status == if nbytes < 0 then C.BadArgument else C.Miss
    ensures C.Pin(state, key) == C.Unpin(state, key) == C.Step(state, C.NotResident)
    ensures var admitted := C.Admit(state, key, arrays, nbytes);
            && (admitted.status.BadArgument? <==> nbytes <= 0)
            && (admitted.status.OverCapacity? <==> 0 < nbytes && nbytes > state.capacity)
            && (admitted.status.PinnedExhausted? <==>
                  0 < nbytes <= state.capacity < PinnedBytes(state.entries) + nbytes)
            && (admitted.status.Done? <==> 0 < nbytes && PinnedBytes(state.entries) + nbytes <= state.capacity)
            && (admitted.status.BadArgument? || admitted.status.OverCapacity? ==> admitted.state == state)
  {
    hide L.Find; hide C.Bytes; hide C.Evict; hide PinnedBytes;
    HoldsIff(state.entries, key);
    EvictReachesIff(state.entries, state.capacity - nbytes);
  }

  lemma ShrinkRaisesIff<A>(state: C.State<A>, bytes: int)
    requires C.Sound(state)
    ensures var evicted := C.EvictTo(state, bytes);
            && (evicted.status.BadArgument? <==> bytes < 0)
            && (evicted.status.PinnedExhausted? <==> 0 <= bytes < PinnedBytes(state.entries))
            && (evicted.status.Done? <==> 0 <= bytes && PinnedBytes(state.entries) <= bytes)
            && evicted.state.capacity == state.capacity
    ensures var resized := C.Resize(state, bytes);
            && (resized.status.BadArgument? <==> bytes <= 0)
            && (resized.status.PinnedExhausted? <==> 0 < bytes < PinnedBytes(state.entries))
            && (resized.status.Done? <==> 0 < bytes && PinnedBytes(state.entries) <= bytes)
            && resized.state.capacity == if resized.status.Done? then bytes else state.capacity
  {
    hide C.Bytes; hide C.Evict; hide PinnedBytes;
    EvictReachesIff(state.entries, bytes);
    PinnedAtMostAll(state.entries);
  }

  lemma DropKeepsSuffix<A>(entries: seq<C.Resident<A>>, i: nat)
    requires i < |entries| && PinnedSuffix(entries)
    ensures PinnedSuffix(C.Drop(entries, i))
  {
    var d := C.Drop(entries, i);
    forall a, b | 0 <= a < b < |d| && d[a].pins > 0 ensures d[b].pins > 0 {
      assert d[a] == entries[if a < i then a else a + 1] && d[b] == entries[if b < i then b else b + 1];
    }
  }

  /** The resolved expert is the most recent entry; the entries before it keep their pins in order. */
  ghost predicate ResolvedLast<A>(entries: seq<C.Resident<A>>, key: L.Key) {
    entries != [] && entries[|entries| - 1].key == key && PinnedSuffix(entries[..|entries| - 1])
  }

  lemma HitMirrors<A>(manifest: Manifest, load: Load<A>, rt: Runtime<A>, key: L.Key, readOk: bool, sim: L.Cache)
    requires ValidManifest(manifest) && Inv(manifest, load, rt) && PinnedSuffix(rt.cache.entries)
    requires Mirrors(rt.cache, sim) && key in manifest && C.Holds(rt.cache.entries, key)
    ensures var ran := Resolve(manifest, load, rt, key, readOk);
            Mirrors(ran.rt.cache, L.Access(sim, key, manifest[key])) && ResolvedLast(ran.rt.cache.entries, key)
  {
    hide L.Find; hide L.Total; hide C.Erase; hide C.Drop; hide L.Without; hide L.Distinct; hide C.Distinct;
    hide Accounted; hide PinnedSuffix; hide C.Bytes;
    var entries := rt.cache.entries;
    var i := C.Find(entries, key);
    var e := entries[i];
    HitIsExact(manifest, load, rt, i);
    C.MoveSound(entries, i, e);
    DropKeepsSuffix(entries, i);
    var after := C.Drop(entries, i) + [e];
    assert after[..|after| - 1] == C.Drop(entries, i);
  }

  lemma MissMirrors<A>(manifest: Manifest, load: Load<A>, rt: Runtime<A>, key: L.Key, readOk: bool, sim: L.Cache)
    requires ValidManifest(manifest) && Inv(manifest, load, rt) && PinnedSuffix(rt.cache.entries)
    requires Mirrors(rt.cache, sim) && key in manifest && !C.Holds(rt.cache.entries, key)
    requires Resolve(manifest, load, rt, key, readOk).outcome.Returned?
    ensures var ran := Resolve(manifest, load, rt, key, readOk);
            Mirrors(ran.rt.cache, L.Access(sim, key, manifest[key])) && ResolvedLast(ran.rt.cache.entries, key)
  {
    hide L.Find; hide L.Total; hide C.Erase; hide C.Evict; hide L.Shed; hide C.Distinct; hide Accounted;
    var room := rt.cache.capacity - manifest[key];
    var got := C.Get(rt.cache, key, manifest[key]);
    var reserved := C.Reserve(got.state, manifest[key]);
    MissAccount(manifest, load, got.state, key, multiset(rt.batchPins));
    AdmitAccount(manifest, load, reserved.state, key, multiset(rt.batchPins));
    EvictIsShed(rt.cache.entries, room);
    EvictNothing(reserved.state.entries, room);
    var e := C.Resident(key, load(key), manifest[key], 0);
    C.EraseAppend(reserved.state.entries, [e]);
    C.BytesOne(e);
    var after := reserved.state.entries + [e];
    assert after[..|after| - 1] == reserved.state.entries;
  }

  /** Pinning the resolved expert keeps pins at the recent end and is invisible to the mirror. */
  lemma PinLast<A>(state: C.State<A>, key: L.Key, sim: L.Cache)
    requires C.Sound(state) && ResolvedLast(state.entries, key) && Mirrors(state, sim)
    ensures var pinned := C.Pin(state, key);
            Mirrors(pinned.state, sim) && PinnedSuffix(pinned.state.entries)
  {
    hide L.Find; hide L.Total; hide L.Distinct; hide C.Find;
    var n := |state.entries| - 1;
    C.DistinctFind(state.entries, n);
    var e := state.entries[n];
    assert C.Drop(state.entries, n) == state.entries[..n];
    assert state.entries == state.entries[..n] + [e];
    C.EraseAppend(state.entries[..n], [e]);
    C.EraseAppend(state.entries[..n], [e.(pins := e.pins + 1)]);
    C.BytesOne(e);
    C.BytesOne(e.(pins := e.pins + 1));
  }

  /** One call that does not raise is one access of the simulator. */
  lemma ExecuteMirrors<A>(manifest: Manifest, load: Load<A>, rt: Runtime<A>, key: L.Key, readOk: bool,
                          computeOk: bool, sim: L.Cache)
    requires ValidManifest(manifest) && Inv(manifest, load, rt) && PinnedSuffix(rt.cache.entries)
    requires Mirrors(rt.cache, sim)
    requires var outcome := Execute(manifest, load, rt, key, readOk, computeOk).outcome;
             outcome.Returned? || outcome.ComputeFailed?
    ensures var ran := Execute(manifest, load, rt, key, readOk, computeOk);
            key in manifest && Mirrors(ran.rt.cache, L.Access(sim, key, manifest[key])) &&
            (ran.outcome.Returned? ==> PinnedSuffix(ran.rt.cache.entries))
  {
    hide L.Find; hide L.Total; hide C.Find; hide C.Erase; hide C.Pin; hide C.Unpin; hide PinnedSuffix;
    hide ResolvedLast;
    hide Accounted; hide C.Distinct; hide C.Bytes; hide Resolve; hide L.Access;
    var resolved := Resolve(manifest, load, rt, key, readOk);
    ResolveKeepsInv(manifest, load, rt, key, readOk);
    assert key in manifest by { ResolveKnows(manifest, load, rt, key, readOk); }
    var after := L.Access(sim, key, manifest[key]);
    if C.Holds(rt.cache.entries, key) {
      HitMirrors(manifest, load, rt, key, readOk, sim);
    } else {
      MissMirrors(manifest, load, rt, key, readOk, sim);
    }
    PinLast(resolved.rt.cache, key, after);
    PinKeepsCapacity(C.Pin(resolved.rt.cache, key).state, key);
  }

  lemma ResolveKnows<A>(manifest: Manifest, load: Load<A>, rt: Runtime<A>, key: L.Key, readOk: bool)
    requires Resolve(manifest, load, rt, key, readOk).outcome.Returned?
    ensures key in manifest
  {
  }

  // ----- layers and runs -----

  datatype Call = Call(key: L.Key, readOk: bool, computeOk: bool)

  /** The state after one sparse layer, the experts it accessed, the arrays they computed
      with, and whether anything but a computation failed. */
  datatype Layered<+A> = Layered(rt: Runtime<A>, accessed: seq<L.Key>, used: seq<A>, raised: bool)

  /** One layer: calls until the first failure, then the pins are released, by
      `synchronize_batch` on success and by `abort_batch` otherwise. */
  function RunLayer<A>(manifest: Manifest, load: Load<A>, rt: Runtime<A>, calls: seq<Call>): Layered<A>
    decreases |calls|
  {
    if calls == [] then Layered(Release(rt).rt, [], [], false)
    else
      var call := calls[0];
      var ran := Execute(manifest, load, rt, call.key, call.readOk, call.computeOk);
      if ran.outcome.Returned? then
        var rest := RunLayer(manifest, load, ran.rt, calls[1..]);
        Layered(rest.rt, [call.key] + rest.accessed,
                (if ran.used.Some? then [ran.used.value] else []) + rest.used, rest.raised)
      else
        Layered(Release(ran.rt).rt, if ran.outcome.ComputeFailed? then [call.key] else [], [],
                !ran.outcome.ComputeFailed?)
  }

  function RunLayers<A>(manifest: Manifest, load: Load<A>, rt: Runtime<A>, layers: seq<seq<Call>>): Layered<A>
    decreases |layers|
  {
    if layers == [] then Layered(rt, [], [], false)
    else
      var first := RunLayer(manifest, load, rt, layers[0]);
      var rest := RunLayers(manifest, load, first.rt, layers[1..]);
      Layered(rest.rt, first.accessed + rest.accessed, first.used + rest.used, first.raised || rest.raised)
  }

  function AccessAll(manifest: Manifest, sim: L.Cache, keys: seq<L.Key>): L.Cache
    decreases |keys|
  {
    if keys == [] then sim
    else AccessAll(manifest, L.Access(sim, keys[0], if keys[0] in manifest then manifest[keys[0]] else 0), keys[1..])
  }

  lemma {:induction false} AccessAllConcat(manifest: Manifest, sim: L.Cache, a: seq<L.Key>, b: seq<L.Key>)
    ensures AccessAll(manifest, sim, a + b) == AccessAll(manifest, AccessAll(manifest, sim, a), b)
    decreases |a|
  {
    hide L.Access;
    if a == [] {
      assert a + b == b;
    } else {
      assert (a + b)[1..] == a[1..] + b;
      AccessAllConcat(manifest, L.Access(sim, a[0], if a[0] in manifest then manifest[a[0]] else 0), a[1..], b);
    }
  }

  lemma ReleaseMirrors<A>(manifest: Manifest, load: Load<A>, rt: Runtime<A>, sim: L.Cache)
    requires Inv(manifest, load, rt) && Mirrors(rt.cache, sim)
    ensures Mirrors(Release(rt).rt.cache, sim) && PinnedSuffix(Release(rt).rt.cache.entries)
  {
    hide C.Erase; hide Release;
    ReleaseSucceeds(manifest, load, rt);
    var entries := Release(rt).rt.cache.entries;
    forall i | 0 <= i < |entries| ensures entries[i].pins == 0 {
      assert entries[i] in entries;
    }
  }

  lemma {:induction false} LayerMirrors<A>(manifest: Manifest, load: Load<A>, rt: Runtime<A>, calls: seq<Call>,
                                           sim: L.Cache)
    requires ValidManifest(manifest) && Inv(manifest, load, rt) && PinnedSuffix(rt.cache.entries)
    requires Mirrors(rt.cache, sim) && !RunLayer(manifest, load, rt, calls).raised
    ensures var layer := RunLayer(manifest, load, rt, calls);
            Inv(manifest, load, layer.rt) && layer.rt.batchPins == [] && PinnedSuffix(layer.rt.cache.entries) &&
            Mirrors(layer.rt.cache, AccessAll(manifest, sim, layer.accessed))
    decreases |calls|
  {
    hide C.Erase; hide L.Access; hide Execute; hide Release; hide PinnedSuffix; hide Inv; hide Mirrors;
    if calls == [] {
      ReleaseSucceeds(manifest, load, rt);
      ReleaseMirrors(manifest, load, rt, sim);
    } else {
      var call := calls[0];
      var ran := Execute(manifest, load, rt, call.key, call.readOk, call.computeOk);
      ExecuteKeepsInv(manifest, load, rt, call.key, call.readOk, call.computeOk);
      ExecuteMirrors(manifest, load, rt, call.key, call.readOk, call.computeOk, sim);
      var after := L.Access(sim, call.key, manifest[call.key]);
      if ran.outcome.Returned? {
        var rest := RunLayer(manifest, load, ran.rt, calls[1..]);
        LayerMirrors(manifest, load, ran.rt, calls[1..], after);
        assert ([call.key] + rest.accessed)[1..] == rest.accessed;
      } else {
        ReleaseSucceeds(manifest, load, ran.rt);
        ReleaseMirrors(manifest, load, ran.rt, after);
        assert [call.key][1..] == [];
        assert AccessAll(manifest, after, []) == after;
      }
    }
  }

  lemma {:induction false} LayersMirror<A>(manifest: Manifest, load: Load<A>, rt: Runtime<A>, layers: seq<seq<Call>>,
                                           sim: L.Cache)
    requires ValidManifest(manifest) && Inv(manifest, load, rt) && PinnedSuffix(rt.cache.entries)
    requires Mirrors(rt.cache, sim) && !RunLayers(manifest, load, rt, layers).raised
    ensures var run := RunLayers(manifest, load, rt, layers);
            Mirrors(run.rt.cache, AccessAll(manifest, sim, run.accessed))
    decreases |layers|
  {
    hide C.Erase; hide L.Access; hide RunLayer; hide PinnedSuffix; hide Inv; hide Mirrors; hide AccessAll;
    if layers == [] {
      assert AccessAll(manifest, sim, []) == sim by { AccessNone(manifest, sim); }
    } else {
      var first := RunLayer(manifest, load, rt, layers[0]);
      var rest := RunLayers(manifest, load, first.rt, layers[1..]);
      LayerMirrors(manifest, load, rt, layers[0], sim);
      LayersMirror(manifest, load, first.rt, layers[1..], AccessAll(manifest, sim, first.accessed));
      AccessAllConcat(manifest, sim, first.accessed, rest.accessed);
    }
  }

  lemma AccessNone(manifest: Manifest, sim: L.Cache)
    ensures AccessAll(manifest, sim, []) == sim
  {
  }

  function Fresh<A>(capacity: nat): Runtime<A> {
    Runtime(C.State(capacity, [], C.ZERO), [], 0)
  }

  lemma FreshIsSound<A>(manifest: Manifest, load: Load<A>, capacity: nat)
    requires capacity > 0
    ensures Inv(manifest, load, Fresh(capacity)) && PinnedSuffix(Fresh<A>(capacity).cache.entries)
    ensures Mirrors(Fresh<A>(capacity).cache, L.Cache(capacity, [], L.ZERO))
  {
    var rt: Runtime<A> := Fresh(capacity);
    assert C.Erase(rt.cache.entries) == [];
  }

  /** Pins never change a victim: over any run of layers, with failing computations and
      aborts, the cache holds the same bundles in the same order with the same hits, misses,
      bytes and evictions as the pin-free simulator on the same accesses, as long as no
      layer raises for another reason. */
  lemma PinsNeverChangeVictims<A>(manifest: Manifest, load: Load<A>, capacity: nat, layers: seq<seq<Call>>)
    requires ValidManifest(manifest) && capacity > 0
    requires !RunLayers(manifest, load, Fresh(capacity), layers).raised
    ensures var run := RunLayers(manifest, load, Fresh(capacity), layers);
            Mirrors(run.rt.cache, AccessAll(manifest, L.Cache(capacity, [], L.ZERO), run.accessed))
  {
    FreshIsSound(manifest, load, capacity);
    LayersMirror(manifest, load, Fresh(capacity), layers, L.Cache(capacity, [], L.ZERO));
  }

  /** Whatever happens in a layer, it leaves every entry the manifest's bundle and no pin
      behind, and each completed call computed with exactly its expert's arrays. */
  lemma {:induction false} LayerIsExact<A>(manifest: Manifest, load: Load<A>, rt: Runtime<A>, calls: seq<Call>)
    requires ValidManifest(manifest) && Inv(manifest, load, rt)
    ensures var layer := RunLayer(manifest, load, rt, calls);
            && Inv(manifest, load, layer.rt) && layer.rt.batchPins == []
            && (forall e :: e in layer.rt.cache.entries ==> e.pins == 0)
            && |layer.used| <= |calls|
            && (forall i :: 0 <= i < |layer.used| ==> layer.used[i] == load(calls[i].key))
    decreases |calls|
  {
    hide C.Erase; hide Execute; hide Release; hide Inv;
    if calls == [] {
      ReleaseSucceeds(manifest, load, rt);
    } else {
      var call := calls[0];
      var ran := Execute(manifest, load, rt, call.key, call.readOk, call.computeOk);
      ExecuteKeepsInv(manifest, load, rt, call.key, call.readOk, call.computeOk);
      if ran.outcome.Returned? {
        LayerIsExact(manifest, load, ran.rt, calls[1..]);
        var layer, rest := RunLayer(manifest, load, rt, calls), RunLayer(manifest, load, ran.rt, calls[1..]);
        assert layer.used == [load(call.key)] + rest.used;
        forall i | 0 <= i < |layer.used| ensures layer.used[i] == load(calls[i].key) {
          if i > 0 { assert layer.used[i] == rest.used[i - 1] && calls[i] == calls[1..][i - 1]; }
        }
      } else {
        ReleaseSucceeds(manifest, load, ran.rt);
      }
    }
  }

  // ----- the counters of a whole run, told by what it accessed -----

  function SizeIn(manifest: Manifest): L.Sizes {
    (k: L.Key) => if k in manifest then manifest[k] else 0
  }

  lemma {:induction false} AccessAllIsRun(manifest: Manifest, capacity: nat, keys: seq<L.Key>)
    ensures AccessAll(manifest, L.Cache(capacity, [], L.ZERO), keys) == L.Run(capacity, SizeIn(manifest), keys)
    decreases |keys|
  {
    hide L.Access;
    if keys != [] {
      var n := |keys| - 1;
      assert keys == keys[..n] + [keys[n]] && [keys[n]][1..] == [];
      AccessAllConcat(manifest, L.Cache(capacity, [], L.ZERO), keys[..n], [keys[n]]);
      AccessAllIsRun(manifest, capacity, keys[..n]);
      var before := L.Run(capacity, SizeIn(manifest), keys[..n]);
      var after := L.Access(before, keys[n], if keys[n] in manifest then manifest[keys[n]] else 0);
      assert AccessAll(manifest, before, [keys[n]]) == AccessAll(manifest, after, []);
    }
  }

  /** What a run has loaded is accounted for by its accesses: everything missed was admitted,
      everything ever accessed was admitted once for the first time, the rest are reloads. */
  ghost predicate Traffic<A>(manifest: Manifest, rt: Runtime<A>, trace: seq<L.Key>) {
    var c := rt.cache.counters;
    && c.everAdmitted == L.WorkingSet(trace) && rt.resolutions == |trace|
    && (forall e :: e in rt.cache.entries ==> e.key in trace)
    && (forall k :: k in trace ==> k in manifest && 0 < manifest[k] <= rt.cache.capacity)
    && c.admissionBytes == c.byteMisses && c.reloadBytes + L.DistinctBytes(SizeIn(manifest), trace) == c.admissionBytes
  }

  /** The counters that a resolve which returns moves. */
  lemma ResolveCounts<A>(manifest: Manifest, load: Load<A>, rt: Runtime<A>, key: L.Key, readOk: bool)
    requires ValidManifest(manifest) && Inv(manifest, load, rt)
    requires Resolve(manifest, load, rt, key, readOk).outcome.Returned?
    ensures key in manifest && manifest[key] <= rt.cache.capacity
    ensures var (r, c) := (Resolve(manifest, load, rt, key, readOk).rt, rt.cache.counters);
            var d, missed := r.cache.counters, if C.Holds(rt.cache.entries, key) then 0 else manifest[key];
            && r.resolutions == rt.resolutions + 1 && r.cache.capacity == rt.cache.capacity
            && d.admissionBytes == c.admissionBytes + missed && d.byteMisses == c.byteMisses + missed
            && d.reloadBytes == c.reloadBytes + (if key in c.everAdmitted then missed else 0)
            && d.everAdmitted == c.everAdmitted + (if missed > 0 then {key} else {})
            && forall e :: e in r.cache.entries ==> e.key == key || e in rt.cache.entries
  {
    hide C.Find; hide C.Distinct; hide C.Bytes; hide C.Erase; hide C.Evict; hide Accounted; hide C.Drop;
    var got := C.Get(rt.cache, key, manifest[key]);
    var i := C.Find(rt.cache.entries, key);
    if i < |rt.cache.entries| {
      HitIsExact(manifest, load, rt, i);
      C.DropBytes(rt.cache.entries, i);
      C.DropMembers(rt.cache.entries, i);
    } else {
      MissAccount(manifest, load, got.state, key, multiset(rt.batchPins));
      var reserved := C.Reserve(got.state, manifest[key]);
      C.EvictSound(rt.cache.entries, rt.cache.capacity - manifest[key]);
      AdmitAccount(manifest, load, reserved.state, key, multiset(rt.batchPins));
      EvictNothing(reserved.state.entries, rt.cache.capacity - manifest[key]);
    }
  }

  lemma PinKeys<A>(state: C.State<A>, key: L.Key)
    ensures forall e :: e in C.Pin(state, key).state.entries ==> exists f :: f in state.entries && f.key == e.key
    ensures forall e :: e in C.Unpin(state, key).state.entries ==> exists f :: f in state.entries && f.key == e.key
  {
    hide C.Find;
    var i := C.Find(state.entries, key);
    if i < |state.entries| {
      var e := state.entries[i];
      assert e in state.entries;
      C.DropMembers(state.entries, i);
    }
  }

  lemma TraceGrows(size: L.Sizes, trace: seq<L.Key>, key: L.Key)
    ensures L.WorkingSet(trace + [key]) == L.WorkingSet(trace) + {key}
    ensures L.DistinctBytes(size, trace + [key]) == L.DistinctBytes(size, trace) + if key in trace then 0 else size(key)
  {
    var t := trace + [key];
    assert t[..|t| - 1] == trace && t[|t| - 1] == key;
  }

  lemma SameKeys<A>(a: seq<C.Resident<A>>, b: seq<C.Resident<A>>, trace: seq<L.Key>)
    requires forall e :: e in a ==> e.key in trace
    requires forall e :: e in b ==> exists f :: f in a && f.key == e.key
    ensures forall e :: e in b ==> e.key in trace
  {
  }

  lemma ExecuteTraffic<A>(manifest: Manifest, load: Load<A>, rt: Runtime<A>, call: Call, trace: seq<L.Key>)
    requires ValidManifest(manifest) && Inv(manifest, load, rt) && Traffic(manifest, rt, trace)
    requires var outcome := Execute(manifest, load, rt, call.key, call.readOk, call.computeOk).outcome;
             outcome.Returned? || outcome.ComputeFailed?
    ensures Traffic(manifest, Execute(manifest, load, rt, call.key, call.readOk, call.computeOk).rt, trace + [call.key])
  {
    hide C.Find; hide C.Holds; hide Resolve; hide C.Pin; hide C.Unpin; hide L.DistinctBytes; hide Inv;
    hide L.WorkingSet;
    var key, size := call.key, SizeIn(manifest);
    ResolveKeepsInv(manifest, load, rt, key, call.readOk);
    ResolveCounts(manifest, load, rt, key, call.readOk);
    var resolved := Resolve(manifest, load, rt, key, call.readOk).rt;
    HoldsIff(rt.cache.entries, key);
    TraceGrows(size, trace, key);
    InTrace(trace, key);
    var pinned := C.Pin(resolved.cache, key).state;
    PinKeepsCapacity(resolved.cache, key);
    PinKeys(resolved.cache, key);
    SameKeys(resolved.cache.entries, pinned.entries, trace + [key]);
    PinKeepsCapacity(pinned, key);
    PinKeys(pinned, key);
    SameKeys(pinned.entries, C.Unpin(pinned, key).state.entries, trace + [key]);
  }

  lemma InTrace(trace: seq<L.Key>, key: L.Key)
    ensures key in L.WorkingSet(trace) <==> key in trace
    ensures key in trace ==> L.WorkingSet(trace) + {key} == L.WorkingSet(trace)
  {
  }

  lemma ReleaseTraffic<A>(manifest: Manifest, load: Load<A>, rt: Runtime<A>, trace: seq<L.Key>)
    requires Inv(manifest, load, rt) && Traffic(manifest, rt, trace)
    ensures Traffic(manifest, Release(rt).rt, trace)
  {
    hide Release; hide L.DistinctBytes;
    ReleaseSucceeds(manifest, load, rt);
    var before, after := rt.cache.entries, Release(rt).rt.cache.entries;
    assert |after| == |before| by { assert |C.Erase(after)| == |C.Erase(before)|; }
    forall i | 0 <= i < |after| ensures after[i].key in trace {
      assert C.Erase(after)[i].key == C.Erase(before)[i].key && before[i] in before;
    }
  }

  lemma {:induction false} LayerTraffic<A>(manifest: Manifest, load: Load<A>, rt: Runtime<A>, calls: seq<Call>,
                                           trace: seq<L.Key>)
    requires ValidManifest(manifest) && Inv(manifest, load, rt) && Traffic(manifest, rt, trace)
    requires !RunLayer(manifest, load, rt, calls).raised
    ensures var layer := RunLayer(manifest, load, rt, calls);
            Inv(manifest, load, layer.rt) && Traffic(manifest, layer.rt, trace + layer.accessed)
    decreases |calls|
  {
    hide Execute; hide Release; hide Inv; hide Traffic;
    LayerIsExact(manifest, load, rt, calls);
    if calls == [] {
      ReleaseTraffic(manifest, load, rt, trace);
      assert trace + [] == trace;
    } else {
      var call := calls[0];
      var ran := Execute(manifest, load, rt, call.key, call.readOk, call.computeOk);
      ExecuteKeepsInv(manifest, load, rt, call.key, call.readOk, call.computeOk);
      ExecuteTraffic(manifest, load, rt, call, trace);
      if ran.outcome.Returned? {
        LayerTraffic(manifest, load, ran.rt, calls[1..], trace + [call.key]);
        var rest := RunLayer(manifest, load, ran.rt, calls[1..]).accessed;
        assert trace + ([call.key] + rest) == trace + [call.key] + rest;
      } else {
        ReleaseTraffic(manifest, load, ran.rt, trace + [call.key]);
      }
    }
  }

  lemma {:induction false} LayersTraffic<A>(manifest: Manifest, load: Load<A>, rt: Runtime<A>, layers: seq<seq<Call>>,
                                            trace: seq<L.Key>)
    requires ValidManifest(manifest) && Inv(manifest, load, rt) && Traffic(manifest, rt, trace)
    requires !RunLayers(manifest, load, rt, layers).raised
    ensures var run := RunLayers(manifest, load, rt, layers); Traffic(manifest, run.rt, trace + run.accessed)
    decreases |layers|
  {
    hide RunLayer; hide Inv; hide Traffic;
    if layers == [] {
      assert trace + [] == trace;
    } else {
      LayerTraffic(manifest, load, rt, layers[0], trace);
      var first := RunLayer(manifest, load, rt, layers[0]);
      LayersTraffic(manifest, load, first.rt, layers[1..], trace + first.accessed);
      var rest := RunLayers(manifest, load, first.rt, layers[1..]).accessed;
      assert trace + (first.accessed + rest) == trace + first.accessed + rest;
    }
  }

  /** What a run of layers costs is a matter of its accesses alone. In a cache that started
      empty a call hits exactly when everything accessed since its expert's latest use fits;
      the bytes loaded are those of the other calls, and all of them beyond the first load of
      each expert are reloads. */
  lemma RunCostsWhatItAccesses<A>(manifest: Manifest, load: Load<A>, capacity: nat, layers: seq<seq<Call>>)
    requires ValidManifest(manifest) && capacity > 0
    requires !RunLayers(manifest, load, Fresh(capacity), layers).raised
    ensures var run, size := RunLayers(manifest, load, Fresh(capacity), layers), SizeIn(manifest);
            var c, trace := run.rt.cache.counters, run.accessed;
            && run.rt.resolutions == c.lookups == |trace|
            && c.hits == L.Reuses(capacity, size, trace) && c.misses == |trace| - L.Reuses(capacity, size, trace)
            && c.byteHits == L.ReusedBytes(capacity, size, trace)
            && c.byteMisses == L.AccessedBytes(size, trace) - L.ReusedBytes(capacity, size, trace)
            && c.admissionBytes == c.byteMisses && c.reloadBytes == c.byteMisses - L.DistinctBytes(size, trace)
            && c.misses == |run.rt.cache.entries| + c.evictions
  {
    hide RunLayers; hide L.Run; hide AccessAll; hide L.Reuses; hide L.ReusedBytes; hide L.AccessedBytes;
    hide L.DistinctBytes; hide Inv;
    var run, size := RunLayers(manifest, load, Fresh(capacity), layers), SizeIn(manifest);
    FreshIsSound(manifest, load, capacity);
    NothingAccessed(manifest, Fresh<A>(capacity));
    LayersTraffic(manifest, load, Fresh(capacity), layers, []);
    assert [] + run.accessed == run.accessed;
    PinsNeverChangeVictims(manifest, load, capacity, layers);
    AccessAllIsRun(manifest, capacity, run.accessed);
    L.RunKeepsCapacity(capacity, size, run.accessed);
    L.HitsAreReuses(capacity, size, run.accessed);
    L.AdmissionsAreConserved(capacity, size, run.accessed);
  }

  lemma NothingAccessed<A>(manifest: Manifest, rt: Runtime<A>)
    requires rt.cache.counters == C.ZERO && rt.cache.entries == [] && rt.resolutions == 0
    ensures Traffic(manifest, rt, [])
  {
  }

  // ----- the mutable runtime -----

  class CachedExpertRuntime<!A> {
    const manifest: Manifest
    const load: Load<A>
    const cache: C.ResidentCache<A>
    var batchPins: seq<L.Key>
    var resolutions: nat

    ghost function Now(): Runtime<A>
      reads this, cache
    {
      Runtime(cache.Now(), batchPins, resolutions)
    }

    ghost predicate Valid()
      reads this, cache
    {
      cache.Valid() && ValidManifest(manifest) && Inv(manifest, load, Now())
    }

    constructor (manifest: Manifest, load: Load<A>, capacity: nat)
      requires ValidManifest(manifest) && capacity > 0
      ensures Valid() && fresh(cache) && Now() == Fresh(capacity)
      ensures this.manifest == manifest && this.load == load
    {
      this.manifest, this.load := manifest, load;
      cache := new C.ResidentCache(capacity);
      batchPins, resolutions := [], 0;
      new;
      FreshIsSound(manifest, load, capacity);
    }

    method ResolveResident(key: L.Key, readOk: bool) returns (outcome: Outcome, used: C.Option<A>)
      requires Valid()
      modifies this, cache
      ensures Valid() && Ran(Now(), outcome, used) == Resolve(manifest, load, old(Now()), key, readOk)
    {
      hide C.Get; hide C.Reserve; hide C.Admit; hide C.Find; hide Inv;
      ResolveKeepsInv(manifest, load, Now(), key, readOk);
      if key !in manifest {
        return UnknownExpert, C.None;
      }
      var nbytes := manifest[key];
      var i := C.Find(cache.entries, key);
      var resident := if i < |cache.entries| then C.Some(cache.entries[i].arrays) else C.None;
      GetHitHolds(cache.Now(), key, nbytes);
      var got := cache.Lookup(key, nbytes);
      if got.Hit? {
        resolutions := resolutions + 1;
        return Returned, resident;
      }
      if !got.Miss? {
        return CacheRaised(got), C.None;
      }
      var reserved := cache.ReserveBytes(nbytes);
      if !reserved.Done? {
        return CacheRaised(reserved), C.None;
      }
      if !readOk {
        return ReaderFailed, C.None;
      }
      var arrays := load(key);
      var admitted := cache.AdmitExpert(key, arrays, nbytes);
      if !admitted.Done? {
        return CacheRaised(admitted), C.None;
      }
      resolutions := resolutions + 1;
      return Returned, C.Some(arrays);
    }

    method ExecuteExpert(key: L.Key, readOk: bool, computeOk: bool) returns (outcome: Outcome, used: C.Option<A>)
      requires Valid()
      modifies this, cache
      ensures Valid() && Ran(Now(), outcome, used) == Execute(manifest, load, old(Now()), key, readOk, computeOk)
    {
      hide Resolve; hide C.Pin; hide C.Unpin; hide Inv;
      ExecuteKeepsInv(manifest, load, Now(), key, readOk, computeOk);
      ResolveKeepsInv(manifest, load, Now(), key, readOk);
      outcome, used := ResolveResident(key, readOk);
      if !outcome.Returned? {
        return;
      }
      var pinned := cache.PinExpert(key);
      if !pinned.Done? {
        return CacheRaised(pinned), used;
      }
      batchPins := batchPins + [key];
      if !computeOk {
        batchPins := batchPins[..|batchPins| - 1];
        var unpinned := cache.UnpinExpert(key);
        outcome := if unpinned.Done? then ComputeFailed else CacheRaised(unpinned);
      }
    }

    /** The loop of `_release_batch_pins`; it never meets an entry it cannot unpin. */
    method ReleaseBatchPins()
      requires Valid()
      modifies this, cache
      ensures Valid() && Now() == Release(old(Now())).rt && batchPins == []
      ensures forall e :: e in cache.entries ==> e.pins == 0
    {
      hide C.Unpin; hide C.Find; hide C.Distinct; hide C.Bytes; hide C.Erase; hide Accounted;
      ReleaseSucceeds(manifest, load, Now());
      while batchPins != []
        invariant Valid()
        invariant Release(Now()) == Release(old(Now()))
        decreases |batchPins|
      {
        var n := |batchPins| - 1;
        ReleaseStep(manifest, load, Now());
        var key := batchPins[n];
        batchPins := batchPins[..n];
        var status := cache.UnpinExpert(key);
      }
    }
  }

  lemma GetHitHolds<A>(state: C.State<A>, key: L.Key, nbytes: int)
    ensures C.Get(state, key, nbytes).status.Hit? ==> C.Find(state.entries, key) < |state.entries|
  {
    hide C.Find;
  }

  lemma ReleaseStep<A>(manifest: Manifest, load: Load<A>, rt: Runtime<A>)
    requires Inv(manifest, load, rt) && rt.batchPins != []
    ensures var n := |rt.batchPins| - 1;
            var unpinned := C.Unpin(rt.cache, rt.batchPins[n]);
            var after := rt.(cache := unpinned.state, batchPins := rt.batchPins[..n]);
            unpinned.status.Done? && Release(rt) == Release(after) && Inv(manifest, load, after)
  {
    hide C.Unpin; hide C.Find; hide C.Distinct; hide C.Bytes; hide C.Erase; hide Accounted;
    var n := |rt.batchPins| - 1;
    assert rt.batchPins == rt.batchPins[..n] + [rt.batchPins[n]];
    assert multiset(rt.batchPins) - multiset{rt.batchPins[n]} == multiset(rt.batchPins[..n]);
    UnpinAccount(manifest, load, rt.cache, rt.batchPins[n], multiset(rt.batchPins));
  }
}
