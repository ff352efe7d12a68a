/** The pin-safe resident expert cache. `A` stands for the materialized arrays of one expert. */
module ResidentCache {
  import L = LruPolicy

  datatype Option<+T> = None | Some(value: T)

  /** One resident expert; entry lists run from least to most recently used. */
  datatype Resident<+A> = Resident(key: L.Key, arrays: A, nbytes: nat, pins: nat)

  datatype Counters = Counters(
    lookups: nat, hits: nat, misses: nat, byteHits: nat, byteMisses: nat,
    evictions: nat, admissionBytes: nat, reloadBytes: nat, everAdmitted: set<L.Key>)

  datatype State<+A> = State(capacity: nat, entries: seq<Resident<A>>, counters: Counters)

  /** How an operation ends; all but `Done`, `Hit` and `Miss` are exceptions of the source. */
  datatype Status = Done | Hit | Miss | BadArgument | SizeMismatch | OverCapacity | PinnedExhausted
                  | NotResident | NotPinned

  datatype Step<+A> = Step(state: State<A>, status: Status)

  const ZERO := Counters(0, 0, 0, 0, 0, 0, 0, 0, {})

  // ----- entry lists -----

  /** The list as the pin-free simulator sees it. */
  function Erase<A>(entries: seq<Resident<A>>): (r: seq<L.Entry>)
    ensures |r| == |entries|
    ensures forall i :: 0 <= i < |entries| ==> r[i] == L.Entry(entries[i].key, entries[i].nbytes)
  {
    seq(|entries|, i requires 0 <= i < |entries| => L.Entry(entries[i].key, entries[i].nbytes))
  }

  function Bytes<A>(entries: seq<Resident<A>>): nat {
    L.Total(Erase(entries))
  }

  function Find<A>(entries: seq<Resident<A>>, key: L.Key): (i: nat)
    ensures i <= |entries|
    ensures i < |entries| ==> entries[i].key == key
    ensures forall j :: 0 <= j < i ==> entries[j].key != key
  {
    L.Find(Erase(entries), key)
  }

  predicate Holds<A>(entries: seq<Resident<A>>, key: L.Key) {
    Find(entries, key) < |entries|
  }

  function Drop<A>(entries: seq<Resident<A>>, i: nat): seq<Resident<A>>
    requires i < |entries|
  {
    entries[..i] + entries[i + 1..]
  }

  function FirstUnpinned<A>(entries: seq<Resident<A>>): (i: nat)
    ensures i <= |entries|
    ensures i < |entries| ==> entries[i].pins == 0
    ensures forall j :: 0 <= j < i ==> entries[j].pins > 0
  {
    if entries == [] || entries[0].pins == 0 then 0 else 1 + FirstUnpinned(entries[1..])
  }

  /** The eviction loops: drop the least recent unpinned entry until the rest fits in
      `room` bytes or everything left is pinned. */
  function Evict<A>(entries: seq<Resident<A>>, room: int): (kept: seq<Resident<A>>)
    ensures |kept| <= |entries|
    decreases |entries|
  {
    if Bytes(entries) <= room || FirstUnpinned(entries) == |entries| then entries
    else Evict(Drop(entries, FirstUnpinned(entries)), room)
  }

  function EvictTowards<A>(state: State<A>, room: int): Step<A> {
    var kept := Evict(state.entries, room);
    Step(state.(entries := kept,
                counters := state.counters.(evictions := state.counters.evictions + (|state.entries| - |kept|))),
         if Bytes(kept) <= room then Done else PinnedExhausted)
  }

  // ----- operations -----

  function Get<A>(state: State<A>, key: L.Key, nbytes: int): Step<A> {
    var c := state.counters.(lookups := state.counters.lookups + 1);
    var i := Find(state.entries, key);
    if nbytes < 0 then Step(state, BadArgument)
    else if i == |state.entries| then
      Step(state.(counters := c.(misses := c.misses + 1, byteMisses := c.byteMisses + nbytes)), Miss)
    else if nbytes != 0 && state.entries[i].nbytes != nbytes then Step(state.(counters := c), SizeMismatch)
    else
      Step(state.(entries := Drop(state.entries, i) + [state.entries[i]],
                  counters := c.(hits := c.hits + 1, byteHits := c.byteHits + state.entries[i].nbytes)), Hit)
  }

  function Reserve<A>(state: State<A>, nbytes: int): Step<A> {
    if nbytes <= 0 then Step(state, BadArgument)
    else if nbytes > state.capacity then Step(state, OverCapacity)
    else EvictTowards(state, state.capacity - nbytes)
  }

  function Admit<A>(state: State<A>, key: L.Key, arrays: A, nbytes: int): Step<A> {
    var i := Find(state.entries, key);
    if nbytes <= 0 then Step(state, BadArgument)
    else if i < |state.entries| then
      Step(state, if state.entries[i].nbytes != nbytes then SizeMismatch else Done)
    else
      var reserved := Reserve(state, nbytes);
      if reserved.status != Done then reserved
      else
        var c := reserved.state.counters;
        Step(reserved.state.(
               entries := reserved.state.entries + [Resident(key, arrays, nbytes, 0)],
               counters := c.(admissionBytes := c.admissionBytes + nbytes,
                              reloadBytes := c.reloadBytes + if key in c.everAdmitted then nbytes else 0,
                              everAdmitted := c.everAdmitted + {key})), Done)
  }

  function Pin<A>(state: State<A>, key: L.Key): Step<A> {
    var i := Find(state.entries, key);
    if i == |state.entries| then Step(state, NotResident)
    else
      var e := state.entries[i];
      Step(state.(entries := Drop(state.entries, i) + [e.(pins := e.pins + 1)]), Done)
  }

  function Unpin<A>(state: State<A>, key: L.Key): Step<A> {
    var i := Find(state.entries, key);
    if i == |state.entries| then Step(state, NotResident)
    else
      var e := state.entries[i];
      if e.pins == 0 then Step(state, NotPinned)
      else Step(state.(entries := state.entries[i := e.(pins := e.pins - 1)]), Done)
  }

  function EvictTo<A>(state: State<A>, target: int): Step<A> {
    if target < 0 then Step(state, BadArgument)
    else if target >= Bytes(state.entries) then Step(state, Done)
    else EvictTowards(state, target)
  }

  /** A failed resize restores the old capacity but not the evicted entries. */
  function Resize<A>(state: State<A>, capacity: int): Step<A> {
    if capacity <= 0 then Step(state, BadArgument)
    else
      var evicted := EvictTowards(state, capacity);
      if evicted.status == Done then evicted.(state := evicted.state.(capacity := capacity)) else evicted
  }

  // ----- soundness -----

  ghost predicate Distinct<A>(entries: seq<Resident<A>>) {
    L.Distinct(Erase(entries))
  }

  /** What the source re-checks after every change: capacity kept, one entry per key. */
  ghost predicate Sound<A>(state: State<A>) {
    state.capacity > 0 && Distinct(state.entries) && Bytes(state.entries) <= state.capacity
  }

  lemma EraseAppend<A>(a: seq<Resident<A>>, b: seq<Resident<A>>)
    ensures Erase(a + b) == Erase(a) + Erase(b)
    ensures Bytes(a + b) == Bytes(a) + Bytes(b)
  {
    L.TotalConcat(Erase(a), Erase(b));
  }

  lemma BytesOne<A>(e: Resident<A>)
    ensures Bytes([e]) == e.nbytes && Erase([e]) == [L.Entry(e.key, e.nbytes)]
  {
    assert Erase([e]) == [L.Entry(e.key, e.nbytes)];
    L.TotalOne(L.Entry(e.key, e.nbytes));
  }

  lemma DropBytes<A>(entries: seq<Resident<A>>, i: nat)
    requires i < |entries|
    ensures Bytes(Drop(entries, i)) == Bytes(entries) - entries[i].nbytes
    ensures Erase(Drop(entries, i)) == Erase(entries)[..i] + Erase(entries)[i + 1..]
    ensures Distinct(entries) ==> Distinct(Drop(entries, i))
  {
    assert Erase(Drop(entries, i)) == Erase(entries)[..i] + Erase(entries)[i + 1..];
    L.CutOut(Erase(entries), i);
  }

  /** Moving one entry to the recent end, whatever happens to its pins. */
  lemma MoveSound<A>(entries: seq<Resident<A>>, i: nat, moved: Resident<A>)
    requires i < |entries| && Distinct(entries)
    requires moved.key == entries[i].key && moved.nbytes == entries[i].nbytes
    ensures Distinct(Drop(entries, i) + [moved]) && Bytes(Drop(entries, i) + [moved]) == Bytes(entries)
    ensures Erase(Drop(entries, i) + [moved])
            == L.Without(Erase(entries), moved.key) + [L.Entry(moved.key, moved.nbytes)]
  {
    DropBytes(entries, i);
    EraseAppend(Drop(entries, i), [moved]);
    BytesOne(moved);
    hide L.Find; hide L.Total;
    L.WithoutDistinct(Erase(entries), L.Entry(moved.key, moved.nbytes));
    DistinctFind(entries, i);
  }

  lemma DistinctFind<A>(entries: seq<Resident<A>>, i: nat)
    requires i < |entries| && Distinct(entries)
    ensures Find(entries, entries[i].key) == i
  {
    hide L.Find;
    forall j | 0 <= j < i ensures entries[j].key != entries[i].key {
      assert Erase(entries)[j].key != Erase(entries)[i].key;
    }
  }

  lemma {:induction false} EvictSound<A>(entries: seq<Resident<A>>, room: int)
    requires Distinct(entries)
    ensures Distinct(Evict(entries, room)) && Bytes(Evict(entries, room)) <= Bytes(entries)
    ensures forall e :: e in Evict(entries, room) ==> e in entries
    ensures forall e :: e in entries && e.pins > 0 ==> e in Evict(entries, room)
    ensures Bytes(Evict(entries, room)) > room ==> forall e :: e in Evict(entries, room) ==> e.pins > 0
    decreases |entries|
  {
    hide Erase; hide Bytes; hide L.Distinct; hide Distinct; hide FirstUnpinned; hide Drop;
    var i := FirstUnpinned(entries);
    if Bytes(entries) > room && i < |entries| {
      DropBytes(entries, i);
      DropMembers(entries, i);
      EvictSound(Drop(entries, i), room);
    }
  }

  lemma DropMembers<A>(entries: seq<Resident<A>>, i: nat)
    requires i < |entries|
    ensures forall e :: e in Drop(entries, i) ==> e in entries
    ensures forall e :: e in entries && e != entries[i] ==> e in Drop(entries, i)
  {
    assert entries == entries[..i] + ([entries[i]] + entries[i + 1..]);
  }

  lemma EvictTowardsSound<A>(state: State<A>, room: int)
    requires Sound(state)
    ensures Sound(EvictTowards(state, room).state)
    ensures EvictTowards(state, room).status == Done <==> Bytes(EvictTowards(state, room).state.entries) <= room
  {
    EvictSound(state.entries, room);
  }

  lemma LookupsStaySound<A>(state: State<A>, key: L.Key, nbytes: int)
    requires Sound(state)
    ensures Sound(Get(state, key, nbytes).state) && Sound(Pin(state, key).state) && Sound(Unpin(state, key).state)
  {
    hide Erase; hide Bytes; hide L.Distinct; hide Distinct; hide Find; hide Drop;
    var i := Find(state.entries, key);
    if i < |state.entries| {
      var e := state.entries[i];
      MoveSound(state.entries, i, e);
      MoveSound(state.entries, i, e.(pins := e.pins + 1));
      if e.pins > 0 { SamePinFree(state.entries, i, e.(pins := e.pins - 1)); }
    }
  }

  /** Changing pins in place is invisible to the pin-free view. */
  lemma SamePinFree<A>(entries: seq<Resident<A>>, i: nat, changed: Resident<A>)
    requires i < |entries| && changed.key == entries[i].key && changed.nbytes == entries[i].nbytes
    ensures Erase(entries[i := changed]) == Erase(entries)
    ensures Bytes(entries[i := changed]) == Bytes(entries)
    ensures Distinct(entries) ==> Distinct(entries[i := changed])
  {
    hide L.Distinct; hide L.Total;
    assert Erase(entries[i := changed]) == Erase(entries);
  }

  lemma AdmitStaysSound<A>(state: State<A>, key: L.Key, arrays: A, nbytes: int)
    requires Sound(state)
    ensures Sound(Reserve(state, nbytes).state) && Sound(Admit(state, key, arrays, nbytes).state)
  {
    hide Erase; hide Bytes; hide L.Distinct; hide Distinct; hide Find; hide Evict;
    if 0 < nbytes <= state.capacity {
      EvictTowardsSound(state, state.capacity - nbytes);
      var reserved := Reserve(state, nbytes);
      if reserved.status == Done && Find(state.entries, key) == |state.entries| {
        EvictSound(state.entries, state.capacity - nbytes);
        AppendSound(state.entries, reserved.state.entries, Resident(key, arrays, nbytes, 0));
      }
    }
  }

  lemma AppendSound<A>(before: seq<Resident<A>>, kept: seq<Resident<A>>, e: Resident<A>)
    requires Distinct(kept) && Find(before, e.key) == |before|
    requires forall r :: r in kept ==> r in before
    ensures Distinct(kept + [e]) && Bytes(kept + [e]) == Bytes(kept) + e.nbytes
    ensures Erase(kept + [e]) == Erase(kept) + [L.Entry(e.key, e.nbytes)]
  {
    hide L.Total; hide L.Find;
    EraseAppend(kept, [e]);
    BytesOne(e);
    forall i | 0 <= i < |kept| ensures kept[i].key != e.key {
      assert kept[i] in before;
    }
  }

  lemma ShrinkStaysSound<A>(state: State<A>, bytes: int)
    requires Sound(state)
    ensures Sound(EvictTo(state, bytes).state) && Sound(Resize(state, bytes).state)
  {
    EvictTowardsSound(state, bytes);
  }

  // ----- the mutable cache -----

  class ResidentCache<!A> {
    var capacityBytes: nat
    var entries: seq<Resident<A>>
    var residentBytes: nat
    var counters: Counters

    ghost function Now(): State<A>
      reads this
    {
      State(capacityBytes, entries, counters)
    }

    ghost predicate Valid()
      reads this
    {
      Sound(Now()) && residentBytes == Bytes(entries)
    }

    constructor (capacity: nat)
      requires capacity > 0
      ensures Valid() && Now() == State(capacity, [], ZERO)
    {
      capacityBytes := capacity;
      entries, residentBytes, counters := [], 0, ZERO;
    }

    method Lookup(key: L.Key, nbytes: int) returns (status: Status)
      requires Valid()
      modifies this
      ensures Valid() && Step(Now(), status) == Get(old(Now()), key, nbytes)
    {
      hide Erase; hide Bytes; hide Distinct; hide Find; hide Drop;
      LookupsStaySound(Now(), key, nbytes);
      if nbytes < 0 {
        return BadArgument;
      }
      counters := counters.(lookups := counters.lookups + 1);
      var i := Find(entries, key);
      if i == |entries| {
        counters := counters.(misses := counters.misses + 1, byteMisses := counters.byteMisses + nbytes);
        return Miss;
      }
      var e := entries[i];
      if nbytes != 0 && e.nbytes != nbytes {
        return SizeMismatch;
      }
      MoveSound(entries, i, e);
      entries := Drop(entries, i) + [e];
      counters := counters.(hits := counters.hits + 1, byteHits := counters.byteHits + e.nbytes);
      return Hit;
    }

    method ReserveBytes(nbytes: int) returns (status: Status)
      requires Valid()
      modifies this
      ensures Valid() && Step(Now(), status) == Reserve(old(Now()), nbytes)
    {
      hide Erase; hide Bytes; hide Distinct; hide Evict;
      if nbytes <= 0 {
        return BadArgument;
      }
      if nbytes > capacityBytes {
        return OverCapacity;
      }
      EvictTowardsSound(Now(), capacityBytes - nbytes);
      status := EvictWhile(capacityBytes - nbytes);
    }

    method AdmitExpert(key: L.Key, arrays: A, nbytes: int) returns (status: Status)
      requires Valid()
      modifies this
      ensures Valid() && Step(Now(), status) == Admit(old(Now()), key, arrays, nbytes)
    {
      hide Erase; hide Bytes; hide Distinct; hide Find; hide Evict;
      AdmitStaysSound(Now(), key, arrays, nbytes);
      if nbytes <= 0 {
        return BadArgument;
      }
      var i := Find(entries, key);
      if i < |entries| {
        return if entries[i].nbytes != nbytes then SizeMismatch else Done;
      }
      EvictSound(entries, capacityBytes - nbytes);
      ghost var before := entries;
      status := ReserveBytes(nbytes);
      if status != Done {
        return;
      }
      var e := Resident(key, arrays, nbytes, 0);
      AppendSound(before, entries, e);
      entries := entries + [e];
      residentBytes := residentBytes + nbytes;
      var reloaded := if key in counters.everAdmitted then nbytes else 0;
      counters := counters.(admissionBytes := counters.admissionBytes + nbytes,
                            reloadBytes := counters.reloadBytes + reloaded,
                            everAdmitted := counters.everAdmitted + {key});
    }

    method PinExpert(key: L.Key) returns (status: Status)
      requires Valid()
      modifies this
      ensures Valid() && Step(Now(), status) == Pin(old(Now()), key)
    {
      hide Erase; hide Bytes; hide Distinct; hide Find; hide Drop;
      LookupsStaySound(Now(), key, 0);
      var i := Find(entries, key);
      if i == |entries| {
        return NotResident;
      }
      var e := entries[i];
      MoveSound(entries, i, e.(pins := e.pins + 1));
      entries := Drop(entries, i) + [e.(pins := e.pins + 1)];
      return Done;
    }

    method UnpinExpert(key: L.Key) returns (status: Status)
      requires Valid()
      modifies this
      ensures Valid() && Step(Now(), status) == Unpin(old(Now()), key)
    {
      hide Erase; hide Bytes; hide Distinct; hide Find;
      LookupsStaySound(Now(), key, 0);
      var i := Find(entries, key);
      if i == |entries| {
        return NotResident;
      }
      var e := entries[i];
      if e.pins == 0 {
        return NotPinned;
      }
      SamePinFree(entries, i, e.(pins := e.pins - 1));
      entries := entries[i := e.(pins := e.pins - 1)];
      return Done;
    }

    method EvictToTarget(target: int) returns (status: Status)
      requires Valid()
      modifies this
      ensures Valid() && Step(Now(), status) == EvictTo(old(Now()), target)
    {
      hide Erase; hide Bytes; hide Distinct; hide Evict;
      ShrinkStaysSound(Now(), target);
      if target < 0 {
        return BadArgument;
      }
      if target >= residentBytes {
        return Done;
      }
      status := EvictWhile(target);
    }

    method ResizeTo(capacity: int) returns (status: Status)
      requires Valid()
      modifies this
      ensures Valid() && Step(Now(), status) == Resize(old(Now()), capacity)
    {
      hide Erase; hide Bytes; hide Distinct; hide Evict;
      ShrinkStaysSound(Now(), capacity);
      if capacity <= 0 {
        return BadArgument;
      }
      var previous := capacityBytes;
      capacityBytes := capacity;
      status := EvictWhile(capacity);
      if status != Done {
        capacityBytes := previous;
      }
    }

    /** The eviction loop behind `evict_until`, `evict_to` and `resize`. */
    method EvictWhile(room: int) returns (status: Status)
      requires residentBytes == Bytes(entries)
      modifies this
      ensures Step(Now(), status) == EvictTowards(old(Now()), room)
      ensures residentBytes == Bytes(entries)
    {
      hide Erase; hide Bytes; hide FirstUnpinned; hide Drop;
      while residentBytes > room
        invariant residentBytes == Bytes(entries) && capacityBytes == old(capacityBytes)
        invariant Evict(entries, room) == Evict(old(entries), room) && |entries| <= |old(entries)|
        invariant counters ==
                  old(counters).(evictions := old(counters).evictions + (|old(entries)| - |entries|))
        decreases |entries|
      {
        var i := FirstUnpinned(entries);
        if i == |entries| {
          return PinnedExhausted;
        }
        DropBytes(entries, i);
        var victim := entries[i];
        assert |Drop(entries, i)| == |entries| - 1 by { DropLength(entries, i); }
        entries := Drop(entries, i);
        residentBytes := residentBytes - victim.nbytes;
        counters := counters.(evictions := counters.evictions + 1);
      }
      return Done;
    }

    /** `contains`: residency without touching recency or counters. */
    function Contains(key: L.Key): bool
      reads this
    {
      Holds(entries, key)
    }
  }

  lemma DropLength<A>(entries: seq<Resident<A>>, i: nat)
    requires i < |entries|
    ensures |Drop(entries, i)| == |entries| - 1
  {
  }
}
