/** Startup: deciding the mode, preloading the cache, and what full residency then means. */
module Warmup {
  import L = LruPolicy
  import C = ResidentCache
  import R = Runtime

  // ----- the startup decision -----

  /** `expert_working_set().total_bytes`: the sum over all bundles of the manifest. */
  ghost function TotalBytes(manifest: R.Manifest): nat {
    if manifest == map[] then 0
    else
      var k :| k in manifest;
      manifest[k] + TotalBytes(manifest - {k})
  }

  lemma {:induction false} TotalBytesWithout(manifest: R.Manifest, key: L.Key)
    requires key in manifest
    ensures TotalBytes(manifest) == manifest[key] + TotalBytes(manifest - {key})
    decreases |manifest|
  {
    var k :| k in manifest && TotalBytes(manifest) == manifest[k] + TotalBytes(manifest - {k});
    if k != key {
      TotalBytesWithout(manifest - {k}, key);
      TotalBytesWithout(manifest - {key}, k);
      assert manifest - {k} - {key} == manifest - {key} - {k};
    }
  }

  datatype Mode = NoCache | FullResidency | Streaming
  datatype Startup = Startup(mode: Mode, warmupKeys: seq<L.Key>)

  /** The three-mode branch of `decide_startup`. */
  function Decide(budget: C.Option<int>, totalBytes: nat, keys: seq<L.Key>): Startup {
    match budget
    case None => Startup(NoCache, [])
    case Some(bytes) => if bytes >= totalBytes then Startup(FullResidency, keys) else Startup(Streaming, [])
  }

  // ----- warmup -----

  /** What the outside world answers while one key is considered. */
  datatype Probe = Probe(pastDeadline: bool, readOk: bool, overCeiling: bool)
  datatype Stop = Completed | OutOfCapacity | PastDeadline | MemoryCeiling | Failed
  datatype Warmed<+A> = Warmed(cache: C.State<A>, admitted: nat, bytesAdmitted: nat, readerErrors: nat, stop: Stop)

  /** The loop of `warmup` over the ordered keys. */
  function Warm<A>(manifest: R.Manifest, load: R.Load<A>, cache: C.State<A>, keys: seq<L.Key>, probes: seq<Probe>)
    : Warmed<A>
    requires |probes| == |keys| && forall k :: k in keys ==> k in manifest
    decreases |keys|
  {
    if keys == [] then Warmed(cache, 0, 0, 0, Completed)
    else
      var key, probe := keys[0], probes[0];
      if probe.pastDeadline then Warmed(cache, 0, 0, 0, PastDeadline)
      else if C.Holds(cache.entries, key) then Warm(manifest, load, cache, keys[1..], probes[1..])
      else if C.Bytes(cache.entries) + manifest[key] > cache.capacity then Warmed(cache, 0, 0, 0, OutOfCapacity)
      else if !probe.readOk then
        var rest := Warm(manifest, load, cache, keys[1..], probes[1..]);
        rest.(readerErrors := rest.readerErrors + 1)
      else if probe.overCeiling then Warmed(cache, 0, 0, 0, MemoryCeiling)
      else
        var admitted := C.Admit(cache, key, load(key), manifest[key]);
        if !admitted.status.Done? then Warmed(admitted.state, 0, 0, 0, Failed)
        else
          var rest := Warm(manifest, load, admitted.state, keys[1..], probes[1..]);
          rest.(admitted := rest.admitted + 1, bytesAdmitted := rest.bytesAdmitted + manifest[key])
  }

  /** `warmup`: ordering the keys fails on a key the manifest does not know. */
  function WarmUp<A>(manifest: R.Manifest, load: R.Load<A>, cache: C.State<A>, keys: seq<L.Key>, probes: seq<Probe>)
    : Warmed<A>
    requires |probes| == |keys|
  {
    if exists k :: k in keys && k !in manifest then Warmed(cache, 0, 0, 0, Failed)
    else Warm(manifest, load, cache, keys, probes)
  }

  function Add<A>(w: Warmed<A>, admitted: nat, bytesAdmitted: nat, readerErrors: nat): Warmed<A> {
    w.(admitted := w.admitted + admitted, bytesAdmitted := w.bytesAdmitted + bytesAdmitted,
       readerErrors := w.readerErrors + readerErrors)
  }

  method WarmCache<A>(manifest: R.Manifest, load: R.Load<A>, cache: C.ResidentCache<A>, keys: seq<L.Key>,
                      probes: seq<Probe>)
    returns (admitted: nat, bytesAdmitted: nat, readerErrors: nat, stop: Stop)
    requires cache.Valid() && |probes| == |keys|
    modifies cache
    ensures cache.Valid()
    ensures Warmed(cache.Now(), admitted, bytesAdmitted, readerErrors, stop)
            == WarmUp(manifest, load, old(cache.Now()), keys, probes)
  {
    hide C.Find; hide C.Distinct; hide C.Erase; hide C.Admit; hide Warm;
    admitted, bytesAdmitted, readerErrors, stop := 0, 0, 0, Completed;
    if exists k :: k in keys && k !in manifest {
      return 0, 0, 0, Failed;
    }
    assert keys[0..] == keys && probes[0..] == probes;
    for i := 0 to |keys|
      invariant cache.Valid()
      invariant Warm(manifest, load, old(cache.Now()), keys, probes)
                == Add(Warm(manifest, load, cache.Now(), keys[i..], probes[i..]), admitted, bytesAdmitted, readerErrors)
    {
      var key, probe := keys[i], probes[i];
      assert keys[i..][1..] == keys[i + 1..] && probes[i..][1..] == probes[i + 1..];
      WarmStep(manifest, load, cache.Now(), keys[i..], probes[i..]);
      if probe.pastDeadline {
        return admitted, bytesAdmitted, readerErrors, PastDeadline;
      }
      if cache.Contains(key) {
        continue;
      }
      if cache.residentBytes + manifest[key] > cache.capacityBytes {
        return admitted, bytesAdmitted, readerErrors, OutOfCapacity;
      }
      if !probe.readOk {
        readerErrors := readerErrors + 1;
        continue;
      }
      if probe.overCeiling {
        return admitted, bytesAdmitted, readerErrors, MemoryCeiling;
      }
      var status := cache.AdmitExpert(key, load(key), manifest[key]);
      if !status.Done? {
        return admitted, bytesAdmitted, readerErrors, Failed;
      }
      admitted, bytesAdmitted := admitted + 1, bytesAdmitted + manifest[key];
    }
    WarmNothing(manifest, load, cache.Now());
  }

  lemma WarmNothing<A>(manifest: R.Manifest, load: R.Load<A>, cache: C.State<A>)
    ensures Warm(manifest, load, cache, [], []) == Warmed(cache, 0, 0, 0, Completed)
  {
  }

  lemma WarmStep<A>(manifest: R.Manifest, load: R.Load<A>, cache: C.State<A>, keys: seq<L.Key>, probes: seq<Probe>)
    requires |probes| == |keys| && keys != [] && forall k :: k in keys ==> k in manifest
    ensures var key, probe, done := keys[0], probes[0], Warm(manifest, load, cache, keys, probes);
            var skipped := Warm(manifest, load, cache, keys[1..], probes[1..]);
            var admitted := C.Admit(cache, key, load(key), manifest[key]);
            if probe.pastDeadline then done == Warmed(cache, 0, 0, 0, PastDeadline)
            else if C.Holds(cache.entries, key) then done == skipped
            else if C.Bytes(cache.entries) + manifest[key] > cache.capacity then
              done == Warmed(cache, 0, 0, 0, OutOfCapacity)
            else if !probe.readOk then done == Add(skipped, 0, 0, 1)
            else if probe.overCeiling then done == Warmed(cache, 0, 0, 0, MemoryCeiling)
            else if !admitted.status.Done? then done == Warmed(admitted.state, 0, 0, 0, Failed)
            else done == Add(Warm(manifest, load, admitted.state, keys[1..], probes[1..]), 1, manifest[key], 0)
  {
    hide C.Find; hide C.Bytes; hide C.Admit;
  }

  ghost predicate Sound<A>(manifest: R.Manifest, load: R.Load<A>, cache: C.State<A>) {
    C.Sound(cache) && R.Accounted(manifest, load, cache.entries, multiset{})
  }

  /** The hit, miss and eviction counters, which warmup must not touch. */
  predicate SameTraffic(a: C.Counters, b: C.Counters) {
    a.lookups == b.lookups && a.hits == b.hits && a.misses == b.misses && a.byteHits == b.byteHits &&
    a.byteMisses == b.byteMisses && a.evictions == b.evictions
  }

  /** Warmup only ever appends: whatever was resident stays where it was, the traffic
      counters stand still, and the totals it reports are what the cache gained. */
  lemma {:induction false} WarmNeverEvicts<A>(manifest: R.Manifest, load: R.Load<A>, cache: C.State<A>,
                                              keys: seq<L.Key>, probes: seq<Probe>)
    requires R.ValidManifest(manifest) && Sound(manifest, load, cache)
    requires |probes| == |keys| && forall k :: k in keys ==> k in manifest
    ensures var w := Warm(manifest, load, cache, keys, probes);
            && Sound(manifest, load, w.cache) && !w.stop.Failed?
            && cache.entries <= w.cache.entries && w.cache.capacity == cache.capacity
            && SameTraffic(w.cache.counters, cache.counters)
            && |w.cache.entries| == |cache.entries| + w.admitted
            && C.Bytes(w.cache.entries) == C.Bytes(cache.entries) + w.bytesAdmitted
    decreases |keys|
  {
    hide C.Find; hide C.Distinct; hide C.Bytes; hide C.Erase; hide C.Admit; hide R.Accounted;
    if keys != [] && !probes[0].pastDeadline {
      var key := keys[0];
      if C.Holds(cache.entries, key) {
        WarmNeverEvicts(manifest, load, cache, keys[1..], probes[1..]);
      } else if C.Bytes(cache.entries) + manifest[key] <= cache.capacity {
        if !probes[0].readOk {
          WarmNeverEvicts(manifest, load, cache, keys[1..], probes[1..]);
        } else if !probes[0].overCeiling {
          WarmAdmits(manifest, load, cache, key);
          WarmNeverEvicts(manifest, load, C.Admit(cache, key, load(key), manifest[key]).state, keys[1..], probes[1..]);
        }
      }
    }
  }

  lemma WarmAdmits<A>(manifest: R.Manifest, load: R.Load<A>, cache: C.State<A>, key: L.Key)
    requires R.ValidManifest(manifest) && Sound(manifest, load, cache) && key in manifest
    requires !C.Holds(cache.entries, key) && C.Bytes(cache.entries) + manifest[key] <= cache.capacity
    ensures var admitted := C.Admit(cache, key, load(key), manifest[key]);
            && admitted.status.Done? && Sound(manifest, load, admitted.state)
            && admitted.state.capacity == cache.capacity
            && admitted.state.entries == cache.entries + [C.Resident(key, load(key), manifest[key], 0)]
            && C.Holds(admitted.state.entries, key)
            && SameTraffic(admitted.state.counters, cache.counters)
            && C.Bytes(admitted.state.entries) == C.Bytes(cache.entries) + manifest[key]
  {
    hide C.Find; hide C.Distinct; hide C.Bytes; hide C.Erase; hide R.Accounted;
    R.AdmitAccount(manifest, load, cache, key, multiset{});
    R.EvictNothing(cache.entries, cache.capacity - manifest[key]);
    var e := C.Resident(key, load(key), manifest[key], 0);
    C.EraseAppend(cache.entries, [e]);
    C.BytesOne(e);
  }

  lemma HoldsInPrefix<A>(a: seq<C.Resident<A>>, b: seq<C.Resident<A>>, key: L.Key)
    requires a <= b && C.Holds(a, key)
    ensures C.Holds(b, key)
  {
    hide C.Find;
    R.HoldsIff(a, key);
    R.HoldsIff(b, key);
  }

  /** A warmup that runs to the end without reader errors has every key resident. */
  lemma {:induction false} CompleteWarmupHoldsAll<A>(manifest: R.Manifest, load: R.Load<A>, cache: C.State<A>,
                                                     keys: seq<L.Key>, probes: seq<Probe>, key: L.Key)
    requires R.ValidManifest(manifest) && Sound(manifest, load, cache)
    requires |probes| == |keys| && forall k :: k in keys ==> k in manifest
    requires var w := Warm(manifest, load, cache, keys, probes); w.stop.Completed? && w.readerErrors == 0
    requires key in keys
    ensures C.Holds(Warm(manifest, load, cache, keys, probes).cache.entries, key)
    decreases |keys|
  {
    hide C.Find; hide C.Distinct; hide C.Bytes; hide C.Erase; hide C.Admit; hide R.Accounted; hide C.Holds;
    var next := if C.Holds(cache.entries, keys[0]) then cache
                else C.Admit(cache, keys[0], load(keys[0]), manifest[keys[0]]).state;
    if !C.Holds(cache.entries, keys[0]) { WarmAdmits(manifest, load, cache, keys[0]); }
    WarmNeverEvicts(manifest, load, next, keys[1..], probes[1..]);
    if key == keys[0] {
      HoldsInPrefix(next.entries, Warm(manifest, load, next, keys[1..], probes[1..]).cache.entries, key);
    } else {
      CompleteWarmupHoldsAll(manifest, load, next, keys[1..], probes[1..], key);
    }
  }

  /** The keys before `n` were considered in time, and each is resident or could not be read. */
  ghost predicate Considered<A>(w: Warmed<A>, keys: seq<L.Key>, probes: seq<Probe>, n: nat)
    requires n <= |keys| == |probes|
  {
    forall i :: 0 <= i < n ==> !probes[i].pastDeadline && (C.Holds(w.cache.entries, keys[i]) || !probes[i].readOk)
  }

  /** Preloading stops at one key, for the reason it reports: all keys were considered, the
      deadline has passed, the key does not fit beside what is resident, or it was read but
      memory is over its ceiling. */
  lemma {:induction false} WarmStopsForCause<A>(manifest: R.Manifest, load: R.Load<A>, cache: C.State<A>,
                                                keys: seq<L.Key>, probes: seq<Probe>) returns (n: nat)
    requires R.ValidManifest(manifest) && Sound(manifest, load, cache)
    requires |probes| == |keys| && forall k :: k in keys ==> k in manifest
    ensures n <= |keys| && Considered(Warm(manifest, load, cache, keys, probes), keys, probes, n)
    ensures var w := Warm(manifest, load, cache, keys, probes);
            if n == |keys| then w.stop.Completed?
            else if probes[n].pastDeadline then w.stop.PastDeadline?
            else
              && !C.Holds(w.cache.entries, keys[n])
              && if C.Bytes(w.cache.entries) + manifest[keys[n]] > w.cache.capacity then w.stop.OutOfCapacity?
                 else w.stop.MemoryCeiling? && probes[n].readOk && probes[n].overCeiling
    decreases |keys|
  {
    hide C.Find; hide C.Distinct; hide C.Bytes; hide C.Erase; hide C.Admit; hide R.Accounted; hide C.Holds; hide Sound;
    hide Warm;
    n := 0;
    if keys == [] {
      WarmNothing(manifest, load, cache);
      return;
    }
    var key, probe := keys[0], probes[0];
    WarmStep(manifest, load, cache, keys, probes);
    var fits := C.Bytes(cache.entries) + manifest[key] <= cache.capacity;
    if !probe.pastDeadline && (C.Holds(cache.entries, key) || (fits && (!probe.readOk || !probe.overCeiling))) {
      var next := cache;
      if !C.Holds(cache.entries, key) && probe.readOk {
        WarmAdmits(manifest, load, cache, key);
        next := C.Admit(cache, key, load(key), manifest[key]).state;
      }
      var m := WarmStopsForCause(manifest, load, next, keys[1..], probes[1..]);
      n := m + 1;
      WarmNeverEvicts(manifest, load, next, keys[1..], probes[1..]);
      var w := Warm(manifest, load, next, keys[1..], probes[1..]);
      if C.Holds(next.entries, key) { HoldsInPrefix(next.entries, w.cache.entries, key); }
      assert forall i :: 0 < i < n ==> keys[i] == keys[1..][i - 1] && probes[i] == probes[1..][i - 1];
    }
  }

  /** Distinct bundles of the manifest never add up to more than all of it. */
  lemma {:induction false} ResidentWithinTotal(manifest: R.Manifest, entries: seq<L.Entry>)
    requires L.Distinct(entries)
    requires forall e :: e in entries ==> e.key in manifest && e.nbytes == manifest[e.key]
    ensures L.Total(entries) <= TotalBytes(manifest)
    decreases |entries|
  {
    if entries != [] {
      var e := entries[0];
      assert e in entries;
      TotalBytesWithout(manifest, e.key);
      ResidentWithinTotal(manifest - {e.key}, entries[1..]);
    }
  }

  /** A capacity that covers the whole manifest never stops a warmup. */
  lemma {:induction false} EnoughCapacityNeverStops<A>(manifest: R.Manifest, load: R.Load<A>, cache: C.State<A>,
                                                       keys: seq<L.Key>, probes: seq<Probe>)
    requires R.ValidManifest(manifest) && Sound(manifest, load, cache) && cache.capacity >= TotalBytes(manifest)
    requires |probes| == |keys| && forall k :: k in keys ==> k in manifest
    ensures !Warm(manifest, load, cache, keys, probes).stop.OutOfCapacity?
    decreases |keys|
  {
    hide C.Find; hide C.Distinct; hide C.Bytes; hide C.Erase; hide C.Admit; hide R.Accounted; hide TotalBytes;
    if keys != [] && !probes[0].pastDeadline {
      var key := keys[0];
      if C.Holds(cache.entries, key) {
        EnoughCapacityNeverStops(manifest, load, cache, keys[1..], probes[1..]);
      } else {
        OneMoreFits(manifest, load, cache, key);
        if !probes[0].readOk {
          EnoughCapacityNeverStops(manifest, load, cache, keys[1..], probes[1..]);
        } else if !probes[0].overCeiling {
          WarmAdmits(manifest, load, cache, key);
          EnoughCapacityNeverStops(manifest, load, C.Admit(cache, key, load(key), manifest[key]).state,
                                   keys[1..], probes[1..]);
        }
      }
    }
  }

  lemma OneMoreFits<A>(manifest: R.Manifest, load: R.Load<A>, cache: C.State<A>, key: L.Key)
    requires Sound(manifest, load, cache) && key in manifest && !C.Holds(cache.entries, key)
    ensures C.Bytes(cache.entries) + manifest[key] <= TotalBytes(manifest)
  {
    hide L.Find; hide TotalBytes;
    TotalBytesWithout(manifest, key);
    var erased := C.Erase(cache.entries);
    forall e | e in erased ensures e.key in manifest - {key} && e.nbytes == (manifest - {key})[e.key] {
      var i :| 0 <= i < |erased| && erased[i] == e;
      assert cache.entries[i] in cache.entries;
      R.HoldsIff(cache.entries, key);
    }
    ResidentWithinTotal(manifest - {key}, erased);
  }

  // ----- full residency -----

  ghost predicate Full<A>(manifest: R.Manifest, entries: seq<C.Resident<A>>) {
    forall k :: k in manifest ==> C.Holds(entries, k)
  }

  lemma KeptHolds<A>(before: seq<C.Resident<A>>, after: seq<C.Resident<A>>, manifest: R.Manifest)
    requires Full(manifest, before)
    requires forall e :: e in before ==> exists f :: f in after && f.key == e.key
    ensures Full(manifest, after)
  {
    hide C.Find; hide C.Holds;
    forall k | k in manifest ensures C.Holds(after, k) {
      R.HoldsIff(before, k);
      R.HoldsIff(after, k);
    }
  }

  lemma MoveKeepsFull<A>(manifest: R.Manifest, entries: seq<C.Resident<A>>, i: nat, moved: C.Resident<A>)
    requires Full(manifest, entries) && C.Distinct(entries) && i < |entries| && moved.key == entries[i].key
    ensures Full(manifest, C.Drop(entries, i) + [moved])
  {
    hide C.Find; hide C.Holds; hide C.Distinct; hide C.Drop;
    var after := C.Drop(entries, i) + [moved];
    R.MovedMembers(entries, i, moved, after);
    forall e | e in entries ensures exists f :: f in after && f.key == e.key {
      var f := if e.key == moved.key then moved else e;
      assert f in after && f.key == e.key;
    }
    KeptHolds(entries, after, manifest);
  }

  lemma UnpinKeepsFull<A>(manifest: R.Manifest, cache: C.State<A>, key: L.Key)
    requires Full(manifest, cache.entries)
    ensures Full(manifest, C.Unpin(cache, key).state.entries)
  {
    hide L.Find; hide C.Erase;
    R.PinKeepsCapacity(cache, key);
    forall k | k in manifest ensures C.Holds(C.Unpin(cache, key).state.entries, k) {
      assert C.Holds(cache.entries, k);
    }
  }

  lemma {:induction false} ReleaseKeepsFull<A>(manifest: R.Manifest, rt: R.Runtime<A>)
    requires Full(manifest, rt.cache.entries)
    ensures Full(manifest, R.Release(rt).rt.cache.entries)
    decreases |rt.batchPins|
  {
    hide C.Unpin; hide C.Holds;
    if rt.batchPins != [] {
      var n := |rt.batchPins| - 1;
      UnpinKeepsFull(manifest, rt.cache, rt.batchPins[n]);
      ReleaseKeepsFull(manifest, rt.(cache := C.Unpin(rt.cache, rt.batchPins[n]).state, batchPins := rt.batchPins[..n]));
    }
  }

  /** What never changes once everything is resident: misses, evictions and loaded bytes. */
  predicate NoLoads(a: C.Counters, b: C.Counters) {
    a.misses == b.misses && a.byteMisses == b.byteMisses && a.evictions == b.evictions &&
    a.admissionBytes == b.admissionBytes && a.reloadBytes == b.reloadBytes
  }

  /** With everything resident a call is a hit, whatever the reader would do. */
  lemma FullCallsHit<A>(manifest: R.Manifest, load: R.Load<A>, rt: R.Runtime<A>, key: L.Key, readOk: bool,
                        computeOk: bool)
    requires R.ValidManifest(manifest) && R.Inv(manifest, load, rt) && Full(manifest, rt.cache.entries)
    ensures var ran := R.Execute(manifest, load, rt, key, readOk, computeOk);
            && Full(manifest, ran.rt.cache.entries) && NoLoads(ran.rt.cache.counters, rt.cache.counters)
            && (key in manifest ==>
                  ran.outcome == (if computeOk then R.Returned else R.ComputeFailed) &&
                  ran.rt.cache.counters.hits == rt.cache.counters.hits + 1)
            && (key !in manifest ==> ran.outcome.UnknownExpert? && ran.rt == rt)
  {
    hide C.Holds; hide C.Sound; hide R.Accounted;
    if key in manifest {
      FullHit(manifest, load, rt, key, readOk, computeOk);
    }
  }

  lemma FullHit<A>(manifest: R.Manifest, load: R.Load<A>, rt: R.Runtime<A>, key: L.Key, readOk: bool, computeOk: bool)
    requires R.ValidManifest(manifest) && R.Inv(manifest, load, rt) && Full(manifest, rt.cache.entries)
    requires key in manifest && C.Holds(rt.cache.entries, key)
    ensures var ran := R.Execute(manifest, load, rt, key, readOk, computeOk);
            && Full(manifest, ran.rt.cache.entries) && NoLoads(ran.rt.cache.counters, rt.cache.counters)
            && ran.outcome == (if computeOk then R.Returned else R.ComputeFailed)
            && ran.rt.cache.counters.hits == rt.cache.counters.hits + 1
  {
    hide C.Find; hide C.Distinct; hide C.Bytes; hide C.Erase; hide C.Drop; hide R.Accounted; hide C.Pin; hide C.Unpin;
    var i := C.Find(rt.cache.entries, key);
    R.HitIsExact(manifest, load, rt, i);
    var resolved := R.Resolve(manifest, load, rt, key, readOk);
    R.ResolveKeepsInv(manifest, load, rt, key, readOk);
    MoveKeepsFull(manifest, rt.cache.entries, i, rt.cache.entries[i]);
    R.PinAccount(manifest, load, resolved.rt.cache, key, multiset(rt.batchPins));
    R.PinKeepsCapacity(resolved.rt.cache, key);
    var pinned := C.Pin(resolved.rt.cache, key).state;
    PinKeepsFull(manifest, resolved.rt.cache, key);
    R.UnpinAccount(manifest, load, pinned, key, multiset(rt.batchPins) + multiset{key});
    R.PinKeepsCapacity(pinned, key);
    UnpinKeepsFull(manifest, pinned, key);
  }

  lemma PinKeepsFull<A>(manifest: R.Manifest, cache: C.State<A>, key: L.Key)
    requires Full(manifest, cache.entries) && C.Distinct(cache.entries)
    ensures Full(manifest, C.Pin(cache, key).state.entries)
  {
    hide C.Find; hide C.Distinct; hide C.Drop; hide C.Holds;
    var i := C.Find(cache.entries, key);
    if i < |cache.entries| {
      var e := cache.entries[i];
      MoveKeepsFull(manifest, cache.entries, i, e.(pins := e.pins + 1));
    }
  }

  lemma {:induction false} FullLayerNeverLoads<A>(manifest: R.Manifest, load: R.Load<A>, rt: R.Runtime<A>,
                                                  calls: seq<R.Call>)
    requires R.ValidManifest(manifest) && R.Inv(manifest, load, rt) && Full(manifest, rt.cache.entries)
    ensures var layer := R.RunLayer(manifest, load, rt, calls);
            Full(manifest, layer.rt.cache.entries) && NoLoads(layer.rt.cache.counters, rt.cache.counters) &&
            layer.rt.cache.counters.hits == rt.cache.counters.hits + |layer.accessed|
    decreases |calls|
  {
    hide C.Holds; hide R.Execute; hide R.Release; hide R.Inv; hide Full; hide C.Erase;
    if calls == [] {
      ReleaseKeepsFull(manifest, rt);
      R.ReleaseSucceeds(manifest, load, rt);
    } else {
      var call := calls[0];
      FullCallsHit(manifest, load, rt, call.key, call.readOk, call.computeOk);
      R.ExecuteKeepsInv(manifest, load, rt, call.key, call.readOk, call.computeOk);
      var ran := R.Execute(manifest, load, rt, call.key, call.readOk, call.computeOk);
      if ran.outcome.Returned? {
        FullLayerNeverLoads(manifest, load, ran.rt, calls[1..]);
      } else {
        ReleaseKeepsFull(manifest, ran.rt);
        R.ReleaseSucceeds(manifest, load, ran.rt);
      }
    }
  }

  lemma {:induction false} FullRunNeverLoads<A>(manifest: R.Manifest, load: R.Load<A>, rt: R.Runtime<A>,
                                                layers: seq<seq<R.Call>>)
    requires R.ValidManifest(manifest) && R.Inv(manifest, load, rt) && Full(manifest, rt.cache.entries)
    ensures var run := R.RunLayers(manifest, load, rt, layers);
            NoLoads(run.rt.cache.counters, rt.cache.counters) &&
            run.rt.cache.counters.hits == rt.cache.counters.hits + |run.accessed|
    decreases |layers|
  {
    hide C.Holds; hide R.RunLayer; hide R.Inv; hide Full;
    if layers != [] {
      FullLayerNeverLoads(manifest, load, rt, layers[0]);
      R.LayerIsExact(manifest, load, rt, layers[0]);
      FullRunNeverLoads(manifest, load, R.RunLayer(manifest, load, rt, layers[0]).rt, layers[1..]);
    }
  }

  /** Experts with an entry each weigh no more than the entries. */
  lemma {:induction false} TotalWithinResident(manifest: R.Manifest, entries: seq<L.Entry>)
    requires L.Distinct(entries)
    requires forall k :: k in manifest ==> L.Entry(k, manifest[k]) in entries
    ensures TotalBytes(manifest) <= L.Total(entries)
    decreases |entries|
  {
    if entries == [] {
      assert manifest == map[];
    } else {
      var e, rest := entries[0], entries[1..];
      var others := manifest - {e.key};
      forall k | k in others ensures L.Entry(k, others[k]) in rest {
        assert L.Entry(k, manifest[k]) in entries;
      }
      TotalWithinResident(others, rest);
      if e.key in manifest {
        TotalBytesWithout(manifest, e.key);
        assert L.Entry(e.key, manifest[e.key]) in entries;
      } else {
        assert others == manifest;
      }
    }
  }

  /** Startup chooses full residency exactly when a cache of that budget can hold every expert
      at once: with a smaller one no sound cache is ever full. Only then are keys preloaded. */
  lemma FullModeIffAllFits<A>(manifest: R.Manifest, load: R.Load<A>, cache: C.State<A>, keys: seq<L.Key>)
    requires R.ValidManifest(manifest) && Sound(manifest, load, cache)
    ensures var startup := Decide(C.Some(cache.capacity), TotalBytes(manifest), keys);
            && (Full(manifest, cache.entries) ==> startup == Startup(FullResidency, keys))
            && (TotalBytes(manifest) <= cache.capacity ==> startup == Startup(FullResidency, keys))
            && (TotalBytes(manifest) > cache.capacity ==> startup == Startup(Streaming, []))
    ensures Decide(C.None, TotalBytes(manifest), keys) == Startup(NoCache, [])
  {
    hide L.Find; hide TotalBytes; hide L.Total;
    if Full(manifest, cache.entries) {
      var erased := C.Erase(cache.entries);
      forall k | k in manifest ensures L.Entry(k, manifest[k]) in erased {
        var i := C.Find(cache.entries, k);
        assert C.Holds(cache.entries, k) && cache.entries[i] in cache.entries;
        assert erased[i] == L.Entry(k, manifest[k]);
      }
      TotalWithinResident(manifest, erased);
    }
  }

  /** Full residency is exact. A budget for the whole manifest decides for it, the warmup of a
      fresh cache of that budget never stops for capacity; and once it completes without reader errors, no run of
      layers ever misses, evicts or loads again: every access is a hit. */
  lemma FullResidencyIsExact<A>(manifest: R.Manifest, load: R.Load<A>, budget: int, keys: seq<L.Key>,
                                probes: seq<Probe>, layers: seq<seq<R.Call>>)
    requires R.ValidManifest(manifest) && budget > 0 && |probes| == |keys|
    requires forall k :: k in keys <==> k in manifest
    requires budget >= TotalBytes(manifest)
    ensures Decide(C.Some(budget), TotalBytes(manifest), keys) == Startup(FullResidency, keys)
    ensures var w := WarmUp(manifest, load, R.Fresh(budget).cache, keys, probes);
            && !w.stop.OutOfCapacity?
            && (w.stop.Completed? && w.readerErrors == 0 ==>
                  var run := R.RunLayers(manifest, load, R.Runtime(w.cache, [], 0), layers);
                  NoLoads(run.rt.cache.counters, w.cache.counters) && run.rt.cache.counters.misses == 0 &&
                  run.rt.cache.counters.evictions == 0 && run.rt.cache.counters.hits == |run.accessed|)
  {
    hide C.Holds; hide C.Find; hide Warm; hide R.RunLayers; hide TotalBytes; hide C.Distinct; hide C.Bytes;
    var cache := R.Fresh<A>(budget).cache;
    assert WarmUp(manifest, load, cache, keys, probes) == Warm(manifest, load, cache, keys, probes);
    R.FreshIsSound(manifest, load, budget);
    assert Sound(manifest, load, cache);
    EnoughCapacityNeverStops(manifest, load, cache, keys, probes);
    WarmNeverEvicts(manifest, load, cache, keys, probes);
    var w := Warm(manifest, load, cache, keys, probes);
    if w.stop.Completed? && w.readerErrors == 0 {
      forall k | k in manifest ensures C.Holds(w.cache.entries, k) {
        CompleteWarmupHoldsAll(manifest, load, cache, keys, probes, k);
      }
      var none: seq<L.Key> := [];
      assert multiset(none) == multiset{};
      FullRunNeverLoads(manifest, load, R.Runtime(w.cache, [], 0), layers);
    }
  }
}
