/** The memory budget: planning the expert budget, and the staged reaction to pressure at
    the safe points between layers. Active-memory readings are inputs. */
module MemoryPressure {
  import L = LruPolicy
  import C = ResidentCache
  import R = Runtime

  // ----- planning -----

  datatype Config = Config(safetyMargin: nat, kvReserve: nat, scratchReserve: nat, explicitWorkingSet: C.Option<nat>)
  datatype Snapshot = Snapshot(physical: nat, recommended: nat)

  datatype Source = Explicit | Auto | Disabled
  datatype Decision = Decision(source: Source, expertBudget: C.Option<int>, workingSet: int, safeWorkingSet: int,
                               available: int)

  datatype Planned = Planned(decision: Decision) | BadArgument | ExceedsPhysical | Insufficient | BudgetTooLarge

  /** `_resolve_working_set`; `None` where an explicit limit exceeds known physical memory. */
  function WorkingSet(config: Config, snapshot: Snapshot): C.Option<nat> {
    match config.explicitWorkingSet
    case None => C.Some(if snapshot.recommended != 0 then snapshot.recommended else snapshot.physical)
    case Some(limit) => if snapshot.physical != 0 && limit > snapshot.physical then C.None else C.Some(limit)
  }

  /** `plan`. The safe part may be negative; the budget never is. */
  function Plan(config: Config, snapshot: Snapshot, shell: int, requested: C.Option<int>, auto: bool, minimum: int)
    : Planned
  {
    if shell < 0 || minimum <= 0 || (requested.Some? && (requested.value <= 0 || auto)) then BadArgument
    else
      match WorkingSet(config, snapshot)
      case None => ExceedsPhysical
      case Some(workingSet) =>
        var safe := workingSet - config.safetyMargin;
        var available := safe - shell - config.kvReserve - config.scratchReserve;
        if (requested.Some? || auto) && available < minimum then Insufficient
        else if requested.Some? && requested.value > available then BudgetTooLarge
        else if requested.Some? then Planned(Decision(Explicit, requested, workingSet, safe, available))
        else if auto then Planned(Decision(Auto, C.Some(available), workingSet, safe, available))
        else Planned(Decision(Disabled, C.None, workingSet, safe, available))
  }

  /** Every cached plan accounts for the whole working set: budget, shell, reserves and margin
      together fit in it, and a routed bundle of the declared size fits in the available part.
      An automatic budget leaves nothing of it over, an explicit one is granted as asked, and
      the set is the explicit limit, else the recommended size, else physical memory. A plan
      with valid arguments fails exactly for a limit over physical memory or a cache that the
      rest of the set is too small for. */
  lemma PlanFitsWorkingSet(config: Config, snapshot: Snapshot, shell: int, requested: C.Option<int>, auto: bool,
                           minimum: int)
    ensures var planned := Plan(config, snapshot, shell, requested, auto, minimum);
            planned.Planned? && planned.decision.expertBudget.Some? ==>
              var d := planned.decision;
              && 0 < d.expertBudget.value <= d.available && minimum <= d.available
              && (auto ==> minimum <= d.expertBudget.value)
              && d.expertBudget.value + shell + config.kvReserve + config.scratchReserve + config.safetyMargin
                 <= d.workingSet
              && (snapshot.physical >= snapshot.recommended && snapshot.physical > 0 ==> d.workingSet <= snapshot.physical)
    ensures var planned := Plan(config, snapshot, shell, requested, auto, minimum);
            planned.Planned? ==> (planned.decision.expertBudget.None? <==> requested.None? && !auto)
    ensures var planned := Plan(config, snapshot, shell, requested, auto, minimum);
            planned.Planned? ==>
              var d := planned.decision;
              && (requested.Some? ==> d.expertBudget == requested)
              && (auto ==> d.expertBudget.Some? && d.expertBudget.value + shell + config.kvReserve +
                           config.scratchReserve + config.safetyMargin == d.workingSet)
              && d.safeWorkingSet + config.safetyMargin == d.workingSet
              && (config.explicitWorkingSet.Some? ==> d.workingSet == config.explicitWorkingSet.value)
              && (config.explicitWorkingSet.None? && snapshot.recommended > 0 ==> d.workingSet == snapshot.recommended)
              && (config.explicitWorkingSet.None? && snapshot.recommended == 0 ==> d.workingSet == snapshot.physical)
    ensures shell >= 0 && minimum > 0 && (requested.Some? ==> requested.value > 0 && !auto) ==>
              var planned := Plan(config, snapshot, shell, requested, auto, minimum);
              var limit := config.explicitWorkingSet;
              var overPhysical := limit.Some? && 0 < snapshot.physical < limit.value;
              var set_ := if config.explicitWorkingSet.Some? then config.explicitWorkingSet.value
                          else if snapshot.recommended > 0 then snapshot.recommended else snapshot.physical;
              var others := config.safetyMargin + shell + config.kvReserve + config.scratchReserve;
              && (planned.ExceedsPhysical? <==> overPhysical)
              && (planned.Insufficient? <==> !overPhysical && (requested.Some? || auto) && set_ < others + minimum)
              && (planned.BudgetTooLarge? <==>
                    !overPhysical && requested.Some? && others + minimum <= set_ < others + requested.value)
    ensures Plan(config, snapshot, shell, requested, auto, minimum).BadArgument? <==>
            shell < 0 || minimum <= 0 || (requested.Some? && (requested.value <= 0 || auto))
  {
  }

  // ----- pressure -----

  datatype Action = NoAction | DisablePrefetch | EvictExperts | Shrink | Reject

  /** The state after one observation; `raised` where the source raises. */
  datatype Enforced<+A> = Enforced(cache: C.State<A>, level: nat, action: Action, raised: bool)

  function MinimumEntry<A>(entries: seq<C.Resident<A>>): C.Option<nat> {
    if entries == [] then C.None
    else
      match MinimumEntry(entries[1..])
      case None => C.Some(entries[0].nbytes)
      case Some(n) => C.Some(if entries[0].nbytes < n then entries[0].nbytes else n)
  }

  function MinimumCapacity<A>(entries: seq<C.Resident<A>>): nat {
    match MinimumEntry(entries)
    case None => 1
    case Some(n) => if n == 0 then 1 else n
  }

  function Target<A>(cache: C.State<A>, safe: int, margin: nat, active: int): nat {
    var left := C.Bytes(cache.entries) - (active - safe + margin / 4);
    if left < 0 then 0 else left
  }

  function NewCapacity<A>(cache: C.State<A>, safe: int, margin: nat, active: int): nat {
    var least, target := MinimumCapacity(cache.entries), Target(cache, safe, margin, active);
    if least > target then least else target
  }

  /** `enforce`: one stage per over-limit observation, back to the start on a safe one. */
  function Enforce<A>(cache: C.State<A>, level: nat, safe: int, margin: nat, active: int): (e: Enforced<A>)
    ensures e.raised ==> !e.action.DisablePrefetch?
  {
    if active <= safe then Enforced(cache, 0, NoAction, false)
    else if level == 0 then Enforced(cache, 1, DisablePrefetch, false)
    else if level == 1 then
      var evicted := C.EvictTo(cache, Target(cache, safe, margin, active));
      Enforced(evicted.state, 2, EvictExperts, !evicted.status.Done?)
    else if level == 2 then
      var resized := C.Resize(cache, NewCapacity(cache, safe, margin, active));
      Enforced(resized.state, 3, Shrink, !resized.status.Done?)
    else Enforced(cache, 4, Reject, true)
  }

  function NextLevel(level: nat, over: bool): nat {
    if !over then 0 else if level <= 3 then level + 1 else 4
  }

  ghost predicate Unpinned<A>(entries: seq<C.Resident<A>>) {
    forall e :: e in entries ==> e.pins == 0
  }

  ghost predicate PositiveSizes<A>(entries: seq<C.Resident<A>>) {
    forall e :: e in entries ==> e.nbytes > 0
  }

  lemma {:induction false} UnpinnedHasNoPinnedBytes<A>(entries: seq<C.Resident<A>>)
    requires Unpinned(entries)
    ensures R.PinnedBytes(entries) == 0
  {
    if entries != [] {
      assert entries[0] in entries;
      UnpinnedHasNoPinnedBytes(entries[1..]);
    }
  }

  lemma {:induction false} MinimumWithinBytes<A>(entries: seq<C.Resident<A>>)
    requires PositiveSizes(entries)
    ensures MinimumEntry(entries).None? <==> entries == []
    ensures entries != [] ==> 0 < MinimumEntry(entries).value <= C.Bytes(entries)
    ensures forall e :: e in entries ==> MinimumEntry(entries).Some? && MinimumEntry(entries).value <= e.nbytes
  {
    hide C.Erase;
    if entries != [] {
      assert entries[0] in entries;
      assert entries == [entries[0]] + entries[1..];
      C.EraseAppend([entries[0]], entries[1..]);
      C.BytesOne(entries[0]);
      MinimumWithinBytes(entries[1..]);
    }
  }

  /** At a safe point, with no pins held, pressure handling always reaches its target: the
      eviction stage gets down to it, the shrink stage only lowers the capacity and keeps at
      least one byte, and the last stage is the only one that raises. */
  lemma EnforceReachesTarget<A>(cache: C.State<A>, level: nat, safe: int, margin: nat, active: int)
    requires C.Sound(cache) && Unpinned(cache.entries) && PositiveSizes(cache.entries)
    ensures var e := Enforce(cache, level, safe, margin, active);
            && C.Sound(e.cache)
            && e.level == NextLevel(if level > 4 then 4 else level, active > safe)
            && (e.raised <==> e.action.Reject?)
            && (e.action.Reject? <==> active > safe && level >= 3)
            && (forall r :: r in e.cache.entries ==> r in cache.entries)
            && (e.action.EvictExperts? ==> C.Bytes(e.cache.entries) <= Target(cache, safe, margin, active))
            && (e.action.Shrink? ==>
                  e.cache.capacity == NewCapacity(cache, safe, margin, active) &&
                  C.Bytes(e.cache.entries) <= e.cache.capacity)
            && 1 <= e.cache.capacity <= cache.capacity
            && (e.action.NoAction? || e.action.DisablePrefetch? || e.action.Reject? ==> e.cache == cache)
  {
    hide C.Bytes; hide C.Evict; hide C.Distinct; hide R.PinnedBytes; hide MinimumEntry;
    var target, shrunk := Target(cache, safe, margin, active), NewCapacity(cache, safe, margin, active);
    UnpinnedHasNoPinnedBytes(cache.entries);
    MinimumWithinBytes(cache.entries);
    R.EvictReachesIff(cache.entries, target);
    R.EvictReachesIff(cache.entries, shrunk);
    C.EvictSound(cache.entries, target);
    C.EvictSound(cache.entries, shrunk);
    C.ShrinkStaysSound(cache, target);
    C.ShrinkStaysSound(cache, shrunk);
  }

  /** `kept` is what is left of `entries` when the least recent ones are dropped while the
      rest is over `room` bytes, and no longer. */
  ghost predicate CutAt<A>(entries: seq<C.Resident<A>>, kept: seq<C.Resident<A>>, room: int, k: nat) {
    k <= |entries| && kept == entries[k..] && C.Bytes(kept) <= room && (k > 0 ==> C.Bytes(entries[k - 1..]) > room)
  }

  ghost predicate ShedTo<A>(entries: seq<C.Resident<A>>, kept: seq<C.Resident<A>>, room: int) {
    exists k: nat :: CutAt(entries, kept, room, k)
  }

  lemma {:induction false} UnpinnedAreShed<A>(entries: seq<C.Resident<A>>, room: nat)
    requires Unpinned(entries)
    ensures ShedTo(entries, C.Evict(entries, room), room)
    decreases |entries|
  {
    hide C.Bytes;
    if C.Bytes(entries) <= room {
      assert CutAt(entries, entries, room, 0);
    } else {
      if entries == [] { NoBytes<A>(); }
      assert entries[0] in entries && C.FirstUnpinned(entries) == 0;
      var rest := entries[1..];
      assert C.Drop(entries, 0) == rest;
      UnpinnedAreShed(rest, room);
      var k: nat :| CutAt(rest, C.Evict(rest, room), room, k);
      assert rest[k..] == entries[k + 1..] && (k > 0 ==> rest[k - 1..] == entries[k..]);
      assert entries[0..] == entries;
      assert CutAt(entries, C.Evict(rest, room), room, k + 1);
    }
  }

  lemma NothingToEvict<A>(entries: seq<C.Resident<A>>, room: int)
    requires C.Bytes(entries) <= room
    ensures C.Evict(entries, room) == entries
  {
  }

  lemma NoBytes<A>()
    ensures C.Bytes<A>([]) == 0
  {
  }

  lemma EvictToSheds<A>(cache: C.State<A>, target: nat)
    ensures Unpinned(cache.entries) ==>
              C.EvictTo(cache, target).status.Done? &&
              ShedTo(cache.entries, C.EvictTo(cache, target).state.entries, target)
  {
    hide C.Bytes; hide C.Evict; hide ShedTo; hide Unpinned;
    if Unpinned(cache.entries) {
      UnpinnedAreShed(cache.entries, target);
      ShedFits(cache.entries, C.Evict(cache.entries, target), target);
      if C.Bytes(cache.entries) <= target { NothingToEvict(cache.entries, target); }
    }
  }

  lemma ShedFits<A>(entries: seq<C.Resident<A>>, kept: seq<C.Resident<A>>, room: int)
    requires ShedTo(entries, kept, room)
    ensures C.Bytes(kept) <= room
  {
  }

  /** The size of the smallest resident expert; one if there is none. */
  ghost predicate IsSmallest<A>(entries: seq<C.Resident<A>>, least: int) {
    if entries == [] then least == 1
    else
      (forall e :: e in entries ==> least <= e.nbytes) && exists i :: 0 <= i < |entries| && entries[i].nbytes == least
  }

  lemma {:induction false} MinimumIsSmallest<A>(entries: seq<C.Resident<A>>)
    requires PositiveSizes(entries)
    ensures IsSmallest(entries, MinimumCapacity(entries))
  {
    if entries != [] {
      var rest := entries[1..];
      MinimumIsSmallest(rest);
      assert entries[0] in entries && forall e :: e in rest ==> e in entries;
      assert entries == [entries[0]] + rest;
      if rest != [] {
        var i :| 0 <= i < |rest| && rest[i].nbytes == MinimumCapacity(rest);
        assert entries[i + 1] == rest[i] && rest[i] in rest;
      }
      assert entries[0].nbytes == MinimumCapacity(entries) ||
             (rest != [] && MinimumCapacity(entries) == MinimumCapacity(rest));
    }
  }

  /** Pressure gives back what active memory is over the safe size and a quarter of the margin:
      the second over-limit observation in a row drops least recent experts until that much is
      gone and no longer, the third lowers the capacity to the same size, or to the smallest
      expert if that is larger, and the first and later ones drop nothing. */
  lemma PressureReclaimsTheExcess<A>(cache: C.State<A>, level: nat, safe: int, margin: nat, active: int, want: int)
    requires C.Sound(cache) && Unpinned(cache.entries) && PositiveSizes(cache.entries) && active > safe
    requires var left := C.Bytes(cache.entries) - (active - safe) - margin / 4; want == if left > 0 then left else 0
    ensures var e := Enforce(cache, level, safe, margin, active);
            && (level == 0 ==> e.action.DisablePrefetch? && e.cache == cache)
            && (level == 1 ==>
                  e.action.EvictExperts? && e.cache.capacity == cache.capacity &&
                  ShedTo(cache.entries, e.cache.entries, want))
            && (level == 2 ==>
                  && e.action.Shrink?
                  && (exists least ::
                        IsSmallest(cache.entries, least) && e.cache.capacity == if want > least then want else least)
                  && ShedTo(cache.entries, e.cache.entries, e.cache.capacity))
            && (level >= 3 ==> e.action.Reject? && e.cache == cache)
            && e.cache.counters ==
               cache.counters.(evictions := cache.counters.evictions + |cache.entries| - |e.cache.entries|)
  {
    hide C.Bytes; hide C.Evict; hide C.Distinct; hide R.PinnedBytes; hide MinimumEntry; hide ShedTo; hide IsSmallest;
    EnforceReachesTarget(cache, level, safe, margin, active);
    EvictToSheds(cache, Target(cache, safe, margin, active));
    UnpinnedAreShed(cache.entries, NewCapacity(cache, safe, margin, active));
    MinimumIsSmallest(cache.entries);
  }

  // ----- the managed runtime over whole runs -----

  datatype Managed<+A> = Managed(rt: R.Runtime<A>, level: nat, prefetchDepth: nat)
  datatype Event = Execute(call: R.Call) | Synchronize(evalOk: bool, active: int) | Abort

  datatype SyncOutcome = Synced | EvalFailed | PressureRaised
  datatype Synced<+A> = SyncedTo(state: Managed<A>, outcome: SyncOutcome)

  /** `synchronize_batch`: pins are released whether or not the evaluation fails, and only
      then is pressure enforced. */
  function SyncBatch<A>(m: Managed<A>, safe: int, margin: nat, evalOk: bool, active: int): Synced<A> {
    var rt := R.Release(m.rt).rt;
    if !evalOk then SyncedTo(m.(rt := rt), EvalFailed)
    else
      var e := Enforce(rt.cache, m.level, safe, margin, active);
      SyncedTo(Managed(rt.(cache := e.cache), e.level, if e.action.DisablePrefetch? then 0 else m.prefetchDepth),
               if e.raised then PressureRaised else Synced)
  }

  function After<A>(manifest: R.Manifest, load: R.Load<A>, m: Managed<A>, safe: int, margin: nat, events: seq<Event>)
    : Managed<A>
  {
    if events == [] then m
    else
      var n := |events| - 1;
      var before := After(manifest, load, m, safe, margin, events[..n]);
      match events[n]
      case Execute(call) =>
        before.(rt := R.Execute(manifest, load, before.rt, call.key, call.readOk, call.computeOk).rt)
      case Synchronize(evalOk, active) => SyncBatch(before, safe, margin, evalOk, active).state
      case Abort => before.(rt := R.Release(before.rt).rt)
  }

  /** Over-limit observations since the last safe one; a failed evaluation observes nothing. */
  function Streak(events: seq<Event>, safe: int): nat {
    if events == [] then 0
    else
      var n := |events| - 1;
      match events[n]
      case Synchronize(evalOk, active) =>
        if !evalOk then Streak(events[..n], safe) else if active > safe then 1 + Streak(events[..n], safe) else 0
      case _ => Streak(events[..n], safe)
  }

  lemma SyncKeepsInv<A>(manifest: R.Manifest, load: R.Load<A>, m: Managed<A>, safe: int, margin: nat, evalOk: bool,
                        active: int)
    requires R.ValidManifest(manifest) && R.Inv(manifest, load, m.rt)
    ensures R.Release(m.rt).status.Done?
    ensures var synced := SyncBatch(m, safe, margin, evalOk, active);
            && R.Inv(manifest, load, synced.state.rt) && synced.state.rt.batchPins == []
            && 1 <= synced.state.rt.cache.capacity <= m.rt.cache.capacity
            && (synced.outcome.PressureRaised? <==> evalOk && active > safe && m.level >= 3)
            && synced.state.level ==
               if evalOk then NextLevel(if m.level > 4 then 4 else m.level, active > safe) else m.level
  {
    hide C.Find; hide C.Distinct; hide C.Bytes; hide C.Erase; hide Enforce; hide R.Release;
    R.ReleaseSucceeds(manifest, load, m.rt);
    var rt := R.Release(m.rt).rt;
    assert PositiveSizes(rt.cache.entries);
    EnforceReachesTarget(rt.cache, m.level, safe, margin, active);
  }

  /** In every reachable state every pin is accounted for and releasing never fails; the
      capacity has only ever shrunk; the pressure level counts the over-limit observations in
      a row, up to four; and synchronizing raises for pressure exactly from the fourth in a row on. */
  lemma {:induction false} PressureStaysSafe<A>(manifest: R.Manifest, load: R.Load<A>, capacity: nat, depth: nat,
                                                safe: int, margin: nat, events: seq<Event>)
    requires R.ValidManifest(manifest) && capacity > 0
    ensures var m := After(manifest, load, Managed(R.Fresh(capacity), 0, depth), safe, margin, events);
            && R.Inv(manifest, load, m.rt)
            && R.Release(m.rt).status.Done?
            && 1 <= m.rt.cache.capacity <= capacity
            && m.level == (if Streak(events, safe) > 4 then 4 else Streak(events, safe))
            && forall evalOk, active ::
                 SyncBatch(m, safe, margin, evalOk, active).outcome.PressureRaised?
                 <==> evalOk && active > safe && Streak(events, safe) >= 3
    decreases |events|
  {
    hide C.Find; hide C.Distinct; hide C.Bytes; hide C.Erase; hide SyncBatch; hide R.Release; hide R.Execute;
    hide R.Accounted;
    var start := Managed(R.Fresh(capacity), 0, depth);
    if events == [] {
      R.FreshIsSound(manifest, load, capacity);
    } else {
      var n := |events| - 1;
      var before := After(manifest, load, start, safe, margin, events[..n]);
      PressureStaysSafe(manifest, load, capacity, depth, safe, margin, events[..n]);
      match events[n]
      case Execute(call) =>
        R.ExecuteKeepsInv(manifest, load, before.rt, call.key, call.readOk, call.computeOk);
      case Synchronize(evalOk, active) => SyncKeepsInv(manifest, load, before, safe, margin, evalOk, active);
      case Abort => R.ReleaseSucceeds(manifest, load, before.rt);
    }
    var m := After(manifest, load, start, safe, margin, events);
    forall evalOk, active
      ensures SyncBatch(m, safe, margin, evalOk, active).outcome.PressureRaised?
              <==> evalOk && active > safe && Streak(events, safe) >= 3
    {
      SyncKeepsInv(manifest, load, m, safe, margin, evalOk, active);
    }
    R.ReleaseSucceeds(manifest, load, m.rt);
  }

  /** Some successful synchronization of the run observed memory over the limit. */
  ghost predicate EverOver(events: seq<Event>, safe: int) {
    exists i :: 0 <= i < |events| && events[i].Synchronize? && events[i].evalOk && events[i].active > safe
  }

  lemma EverOverSnoc(events: seq<Event>, safe: int)
    requires events != []
    ensures var e := events[|events| - 1];
            EverOver(events, safe) <==>
            EverOver(events[..|events| - 1], safe) || (e.Synchronize? && e.evalOk && e.active > safe)
  {
    var before := events[..|events| - 1];
    if EverOver(before, safe) {
      var i :| 0 <= i < |before| && before[i].Synchronize? && before[i].evalOk && before[i].active > safe;
      assert events[i] == before[i];
    }
    if EverOver(events, safe) {
      var i :| 0 <= i < |events| && events[i].Synchronize? && events[i].evalOk && events[i].active > safe;
      assert i < |before| ==> before[i] == events[i];
    }
  }

  lemma {:induction false} StreakMeansOver(events: seq<Event>, safe: int)
    requires Streak(events, safe) > 0
    ensures EverOver(events, safe)
  {
    hide EverOver;
    EverOverSnoc(events, safe);
    var before, e := events[..|events| - 1], events[|events| - 1];
    if Streak(before, safe) > 0 { StreakMeansOver(before, safe); }
  }

  /** Prefetching is switched off for good by the first observation over the limit, and by
      nothing else. */
  lemma {:induction false} PrefetchStopsAtFirstPressure<A>(manifest: R.Manifest, load: R.Load<A>, capacity: nat,
                                                           depth: nat, safe: int, margin: nat, events: seq<Event>)
    requires R.ValidManifest(manifest) && capacity > 0
    ensures After(manifest, load, Managed(R.Fresh(capacity), 0, depth), safe, margin, events).prefetchDepth ==
            if EverOver(events, safe) then 0 else depth
    decreases |events|
  {
    hide C.Evict; hide C.Bytes; hide C.Distinct; hide R.Release; hide R.Execute; hide R.Inv; hide EverOver;
    hide Target; hide NewCapacity; hide Streak;
    if events == [] {
      NeverOver(safe);
    } else {
      var before := events[..|events| - 1];
      PrefetchStopsAtFirstPressure(manifest, load, capacity, depth, safe, margin, before);
      PressureStaysSafe(manifest, load, capacity, depth, safe, margin, before);
      EverOverSnoc(events, safe);
      if Streak(before, safe) > 0 { StreakMeansOver(before, safe); }
    }
  }

  lemma NeverOver(safe: int)
    ensures !EverOver([], safe)
  {
  }

  // ----- the mutable manager -----

  class MemoryBudgetManager {
    const safeWorkingSet: int
    const safetyMargin: nat
    var level: nat
    var actions: seq<Action>

    constructor (safeWorkingSet: int, safetyMargin: nat)
      ensures this.safeWorkingSet == safeWorkingSet && this.safetyMargin == safetyMargin
      ensures level == 0 && actions == []
    {
      this.safeWorkingSet, this.safetyMargin := safeWorkingSet, safetyMargin;
      level, actions := 0, [];
    }

    /** `enforce` after a plan; actions other than `NoAction` are recorded as events. */
    method EnforceOn<A>(cache: C.ResidentCache<A>, active: int) returns (action: Action, raised: bool)
      requires cache.Valid()
      modifies this, cache
      ensures cache.Valid()
      ensures Enforced(cache.Now(), level, action, raised)
              == Enforce(old(cache.Now()), old(level), safeWorkingSet, safetyMargin, active)
      ensures active > safeWorkingSet && old(level) == 1 && Unpinned(old(cache.entries)) ==>
                var left := C.Bytes(old(cache.entries)) - (active - safeWorkingSet) - safetyMargin / 4;
                ShedTo(old(cache.entries), cache.entries, if left > 0 then left else 0)
      ensures actions == old(actions) +
                         if action.NoAction? || (raised && !action.Reject?) then [] else [action]
    {
      hide C.EvictTo; hide C.Resize; hide C.Distinct; hide C.Erase;
      if active <= safeWorkingSet {
        level := 0;
        return NoAction, false;
      }
      if level == 0 {
        level, actions := 1, actions + [DisablePrefetch];
        return DisablePrefetch, false;
      }
      var left := cache.residentBytes - (active - safeWorkingSet + safetyMargin / 4);
      var target := if left < 0 then 0 else left;
      EvictToSheds(cache.Now(), target);
      hide ShedTo; hide Unpinned;
      if level == 1 {
        level := 2;
        var status := cache.EvictToTarget(target);
        if !status.Done? {
          return EvictExperts, true;
        }
        actions := actions + [EvictExperts];
        return EvictExperts, false;
      }
      if level == 2 {
        level := 3;
        var least := MinimumCapacity(cache.entries);
        var status := cache.ResizeTo(if least > target then least else target);
        if !status.Done? {
          return Shrink, true;
        }
        actions := actions + [Shrink];
        return Shrink, false;
      }
      level, actions := 4, actions + [Reject];
      return Reject, true;
    }
  }

  /** `synchronize_batch` on the mutable runtime and manager. */
  method SynchronizeBatch<A>(runtime: R.CachedExpertRuntime<A>, manager: MemoryBudgetManager, prefetchDepth: nat,
                             evalOk: bool, active: int)
    returns (outcome: SyncOutcome, depth: nat)
    requires runtime.Valid()
    modifies runtime, runtime.cache, manager
    ensures runtime.Valid() && runtime.batchPins == []
    ensures SyncedTo(Managed(runtime.Now(), manager.level, depth), outcome)
            == SyncBatch(old(Managed(runtime.Now(), manager.level, prefetchDepth)), manager.safeWorkingSet,
                         manager.safetyMargin, evalOk, active)
  {
    hide R.Release; hide Enforce; hide C.Distinct; hide C.Erase; hide R.Accounted;
    SyncKeepsInv(runtime.manifest, runtime.load, Managed(runtime.Now(), manager.level, prefetchDepth),
                 manager.safeWorkingSet, manager.safetyMargin, evalOk, active);
    depth := prefetchDepth;
    runtime.ReleaseBatchPins();
    if !evalOk {
      return EvalFailed, depth;
    }
    var action, raised := manager.EnforceOn(runtime.cache, active);
    if raised {
      return PressureRaised, depth;
    }
    if action.DisablePrefetch? {
      depth := 0;
    }
    outcome := Synced;
  }
}
