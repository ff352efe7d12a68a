/** The byte-budget LRU simulator, its stack property, and the hit curve computed with it. */
module LruPolicy {

  datatype Key = Key(layer: int, expert: int)

  /** One resident bundle. Entry lists run from least to most recently used. */
  datatype Entry = Entry(key: Key, nbytes: nat)

  function Total(entries: seq<Entry>): nat {
    if entries == [] then 0 else entries[0].nbytes + Total(entries[1..])
  }

  function Find(entries: seq<Entry>, key: Key): (i: nat)
    ensures i <= |entries|
    ensures i < |entries| ==> entries[i].key == key
    ensures forall j :: 0 <= j < i ==> entries[j].key != key
  {
    if entries == [] || entries[0].key == key then 0 else 1 + Find(entries[1..], key)
  }

  predicate Holds(entries: seq<Entry>, key: Key) {
    Find(entries, key) < |entries|
  }

  function Without(entries: seq<Entry>, key: Key): seq<Entry> {
    var i := Find(entries, key);
    if i < |entries| then entries[..i] + entries[i + 1..] else entries
  }

  /** Drop least recently used entries until at most `room` bytes remain. */
  function Shed(entries: seq<Entry>, room: nat): (kept: seq<Entry>)
    ensures |kept| <= |entries|
  {
    if Total(entries) <= room then entries else Shed(entries[1..], room)
  }

  ghost predicate Distinct(entries: seq<Entry>) {
    forall i, j :: 0 <= i < j < |entries| ==> entries[i].key != entries[j].key
  }

  // ----- one access -----

  datatype Counters = Counters(calls: nat, hits: nat, misses: nat, byteHits: nat, byteMisses: nat, evictions: nat)
  datatype Cache = Cache(capacity: nat, entries: seq<Entry>, counters: Counters)
  datatype Outcome = Hit | Miss | BadSize | SizeChanged

  const ZERO := Counters(0, 0, 0, 0, 0, 0)

  function Classify(cache: Cache, key: Key, nbytes: int): Outcome {
    if nbytes <= 0 then BadSize
    else
      var i := Find(cache.entries, key);
      if i == |cache.entries| then Miss
      else if cache.entries[i].nbytes != nbytes then SizeChanged
      else Hit
  }

  /** The state after `access`; the two error outcomes are the source's exceptions. */
  function Access(cache: Cache, key: Key, nbytes: int): Cache {
    var c := cache.counters;
    match Classify(cache, key, nbytes)
    case BadSize => cache
    case SizeChanged => cache.(counters := c.(calls := c.calls + 1))
    case Hit =>
      cache.(entries := Without(cache.entries, key) + [Entry(key, nbytes)],
             counters := c.(calls := c.calls + 1, hits := c.hits + 1, byteHits := c.byteHits + nbytes))
    case Miss =>
      var missed := c.(calls := c.calls + 1, misses := c.misses + 1, byteMisses := c.byteMisses + nbytes);
      if nbytes > cache.capacity then cache.(counters := missed)
      else
        var kept := Shed(cache.entries, cache.capacity - nbytes);
        cache.(entries := kept + [Entry(key, nbytes)],
               counters := missed.(evictions := c.evictions + (|cache.entries| - |kept|)))
  }

  ghost predicate Sound(cache: Cache) {
    cache.capacity > 0 && Distinct(cache.entries) && Total(cache.entries) <= cache.capacity
  }

  // ----- totals, suffixes and distinct keys -----

  lemma {:induction false} TotalConcat(a: seq<Entry>, b: seq<Entry>)
    ensures Total(a + b) == Total(a) + Total(b)
  {
    if a == [] {
      assert a + b == b;
    } else {
      assert (a + b)[1..] == a[1..] + b;
      TotalConcat(a[1..], b);
    }
  }

  lemma TotalOne(e: Entry)
    ensures Total([e]) == e.nbytes
  {
    assert [e][1..] == [];
  }

  lemma {:induction false} ShedIsSuffix(entries: seq<Entry>, room: nat)
    ensures var kept := Shed(entries, room);
            |kept| <= |entries| && kept == entries[|entries| - |kept|..] && Total(kept) <= room
    ensures var cut := |entries| - |Shed(entries, room)|;
            cut > 0 ==> entries[cut - 1].nbytes + Total(entries[cut..]) > room
  {
    hide Total;
    if Total(entries) > room {
      ShedFirst(entries, room);
      var rest, kept := entries[1..], Shed(entries[1..], room);
      ShedIsSuffix(rest, room);
      var cut := |rest| - |kept|;
      assert rest[cut..] == entries[cut + 1..];
      if cut == 0 {
        TotalFirst(entries);
      } else {
        assert rest[cut - 1] == entries[cut];
      }
    } else {
      assert entries[0..] == entries;
    }
  }

  lemma ShedFirst(entries: seq<Entry>, room: nat)
    requires Total(entries) > room
    ensures entries != [] && Shed(entries, room) == Shed(entries[1..], room)
  {
  }

  lemma TotalFirst(entries: seq<Entry>)
    requires entries != []
    ensures Total(entries) == entries[0].nbytes + Total(entries[1..])
  {
  }

  lemma {:induction false} ShedIs(front: seq<Entry>, back: seq<Entry>, room: nat)
    requires Total(back) <= room
    requires front != [] ==> front[|front| - 1].nbytes + Total(back) > room
    ensures Shed(front + back, room) == back
  {
    if front == [] {
      assert front + back == back;
    } else {
      TotalConcat(front, back);
      var n := |front| - 1;
      assert front == front[..n] + [front[n]];
      TotalConcat(front[..n], [front[n]]);
      TotalOne(front[n]);
      assert (front + back)[1..] == front[1..] + back;
      ShedIs(front[1..], back, room);
    }
  }

  lemma CutOut(entries: seq<Entry>, i: nat)
    requires i < |entries|
    ensures Total(entries[..i] + entries[i + 1..]) == Total(entries) - entries[i].nbytes
    ensures Distinct(entries) ==> Distinct(entries[..i] + entries[i + 1..])
  {
    hide Total;
    var a, e, b := entries[..i], entries[i], entries[i + 1..];
    assert entries == a + ([e] + b);
    TotalConcat(a, [e] + b);
    TotalConcat([e], b);
    TotalConcat(a, b);
    TotalOne(e);
  }

  lemma WithoutTotal(entries: seq<Entry>, key: Key)
    ensures Total(Without(entries, key)) ==
            Total(entries) - if Holds(entries, key) then entries[Find(entries, key)].nbytes else 0
  {
    hide Find; hide Total;
    if Holds(entries, key) { CutOut(entries, Find(entries, key)); }
  }

  lemma WithoutMembers(entries: seq<Entry>, key: Key)
    requires Distinct(entries)
    ensures forall e :: e in Without(entries, key) <==> e in entries && e.key != key
  {
    hide Find;
    var i := Find(entries, key);
    if i < |entries| {
      assert entries == entries[..i] + ([entries[i]] + entries[i + 1..]);
    }
  }

  lemma WithoutDistinct(entries: seq<Entry>, e: Entry)
    requires Distinct(entries)
    ensures Distinct(Without(entries, e.key)) && Distinct(Without(entries, e.key) + [e])
  {
    hide Find;
    WithoutMembers(entries, e.key);
    var w := Without(entries, e.key);
    forall j | 0 <= j < |w| ensures w[j].key != e.key {
      assert w[j] in w;
    }
  }

  lemma HoldsIff(entries: seq<Entry>, key: Key)
    ensures Holds(entries, key) <==> exists e :: e in entries && e.key == key
  {
    hide Find;
    if Holds(entries, key) {
      assert entries[Find(entries, key)] in entries;
    }
  }

  // ----- the mutable simulator -----

  class LruCacheSimulator {
    const capacityBytes: nat
    var entries: seq<Entry>
    var residentBytes: nat
    var counters: Counters

    ghost function State(): Cache
      reads this
    {
      Cache(capacityBytes, entries, counters)
    }

    ghost predicate Valid()
      reads this
    {
      Sound(State()) && residentBytes == Total(entries)
    }

    /** The source raises on a capacity that is not positive. */
    constructor (capacity: nat)
      requires capacity > 0
      ensures Valid() && State() == Cache(capacity, [], ZERO)
    {
      capacityBytes := capacity;
      entries, residentBytes, counters := [], 0, ZERO;
    }

    method AccessBundle(key: Key, nbytes: int) returns (outcome: Outcome)
      requires Valid()
      modifies this
      ensures Valid() && outcome == Classify(old(State()), key, nbytes)
      ensures State() == Access(old(State()), key, nbytes)
    {
      hide Find; hide Total; hide Shed; hide Distinct;
      if nbytes <= 0 {
        return BadSize;
      }
      AccessStaysSound(State(), key, nbytes);
      counters := counters.(calls := counters.calls + 1);
      var i := Find(entries, key);
      if i < |entries| {
        if entries[i].nbytes != nbytes {
          return SizeChanged;
        }
        HitTotal(entries, key);
        entries := Without(entries, key) + [Entry(key, nbytes)];
        counters := counters.(hits := counters.hits + 1, byteHits := counters.byteHits + nbytes);
        return Hit;
      }
      counters := counters.(misses := counters.misses + 1, byteMisses := counters.byteMisses + nbytes);
      if nbytes > capacityBytes {
        return Miss;
      }
      EvictFor(nbytes);
      TotalConcat(entries, [Entry(key, nbytes)]);
      TotalOne(Entry(key, nbytes));
      entries := entries + [Entry(key, nbytes)];
      residentBytes := residentBytes + nbytes;
      return Miss;
    }

    /** The eviction loop of `access`. */
    method EvictFor(nbytes: nat)
      requires nbytes <= capacityBytes && residentBytes == Total(entries)
      modifies this
      ensures entries == Shed(old(entries), capacityBytes - nbytes) && residentBytes == Total(entries)
      ensures |entries| <= |old(entries)|
      ensures counters ==
              old(counters).(evictions := old(counters).evictions + (|old(entries)| - |entries|))
    {
      while residentBytes + nbytes > capacityBytes
        invariant residentBytes == Total(entries) && |entries| <= |old(entries)|
        invariant Shed(entries, capacityBytes - nbytes) == Shed(old(entries), capacityBytes - nbytes)
        invariant counters ==
                  old(counters).(evictions := old(counters).evictions + (|old(entries)| - |entries|))
        decreases |entries|
      {
        var victim := entries[0];
        entries := entries[1..];
        residentBytes := residentBytes - victim.nbytes;
        counters := counters.(evictions := counters.evictions + 1);
      }
    }
  }

  lemma HitTotal(entries: seq<Entry>, key: Key)
    requires Holds(entries, key)
    ensures Total(Without(entries, key) + [entries[Find(entries, key)]]) == Total(entries)
  {
    hide Find; hide Total;
    var e := entries[Find(entries, key)];
    WithoutTotal(entries, key);
    TotalConcat(Without(entries, key), [e]);
    TotalOne(e);
  }

  lemma AccessStaysSound(cache: Cache, key: Key, nbytes: int)
    requires Sound(cache)
    ensures Sound(Access(cache, key, nbytes))
  {
    hide Find; hide Total; hide Shed;
    var e := Entry(key, if nbytes < 0 then 0 else nbytes);
    match Classify(cache, key, nbytes)
    case BadSize =>
    case SizeChanged =>
    case Hit =>
      WithoutDistinct(cache.entries, e);
      HitTotal(cache.entries, key);
    case Miss =>
      if nbytes <= cache.capacity {
        ShedIsSuffix(cache.entries, cache.capacity - nbytes);
        var kept := Shed(cache.entries, cache.capacity - nbytes);
        TotalConcat(kept, [e]);
        TotalOne(e);
      }
  }

  /** The accesses that leave the resident bundles as they are: a size that is not positive
      changes nothing, a size other than the resident one only counts the call, and a bundle
      larger than the whole cache only counts a miss. */
  lemma EntriesStayIff(cache: Cache, key: Key, nbytes: int)
    requires Sound(cache)
    ensures var (after, c) := (Access(cache, key, nbytes), cache.counters);
            var resident := exists e :: e in cache.entries && e.key == key;
            var same := nbytes > 0 && Entry(key, nbytes) in cache.entries;
            && (nbytes <= 0 <==> after == cache)
            && (nbytes > 0 ==> after.counters.calls == c.calls + 1)
            && (nbytes > 0 && resident && !same ==> after == cache.(counters := c.(calls := c.calls + 1)))
            && (nbytes > 0 && same ==>
                  after.counters == c.(calls := c.calls + 1, hits := c.hits + 1, byteHits := c.byteHits + nbytes))
            && (nbytes > 0 && !resident ==>
                  after.counters.misses == c.misses + 1 && after.counters.byteMisses == c.byteMisses + nbytes &&
                  after.counters.hits == c.hits && after.counters.byteHits == c.byteHits)
            && (nbytes > cache.capacity && !resident ==> after.entries == cache.entries)
            && (0 < nbytes <= cache.capacity && (same || !resident) ==>
                  after.entries != [] && after.entries[|after.entries| - 1] == Entry(key, nbytes))
  {
    hide Find; hide Total; hide Shed; hide Without;
    HoldsIff(cache.entries, key);
    var i := Find(cache.entries, key);
    if i < |cache.entries| {
      assert cache.entries[i] in cache.entries;
    }
  }

  // ----- the stack property -----

  type Sizes = Key -> nat

  /** The accessed bundles, each once, from least to most recently used. */
  function Stack(size: Sizes, trace: seq<Key>): seq<Entry> {
    if trace == [] then []
    else
      var n := |trace| - 1;
      Without(Stack(size, trace[..n]), trace[n]) + [Entry(trace[n], size(trace[n]))]
  }

  function Run(capacity: nat, size: Sizes, trace: seq<Key>): Cache {
    if trace == [] then Cache(capacity, [], ZERO)
    else
      var n := |trace| - 1;
      Access(Run(capacity, size, trace[..n]), trace[n], size(trace[n]))
  }

  ghost predicate SizesFit(size: Sizes, trace: seq<Key>, capacity: nat) {
    forall i :: 0 <= i < |trace| ==> 0 < size(trace[i]) <= capacity
  }

  ghost predicate Sized(size: Sizes, entries: seq<Entry>) {
    forall e :: e in entries ==> e.nbytes == size(e.key)
  }

  lemma {:induction false} StackIsDistinct(size: Sizes, trace: seq<Key>)
    ensures Distinct(Stack(size, trace)) && Sized(size, Stack(size, trace))
    ensures forall e :: e in Stack(size, trace) ==> e.key in trace
    ensures forall k :: k in trace ==> Entry(k, size(k)) in Stack(size, trace)
  {
    hide Find; hide Without; hide Distinct;
    if trace != [] {
      var n := |trace| - 1;
      var before, e := Stack(size, trace[..n]), Entry(trace[n], size(trace[n]));
      StackIsDistinct(size, trace[..n]);
      WithoutDistinct(before, e);
      WithoutMembers(before, e.key);
      assert trace == trace[..n] + [trace[n]];
    } else {
      assert Distinct([]) by { EmptyIsDistinct(); }
    }
  }

  lemma EmptyIsDistinct()
    ensures Distinct([])
  {
  }

  lemma {:induction false} FindAppended(front: seq<Entry>, back: seq<Entry>, key: Key)
    ensures Find(front + back, key)
            == if Holds(front, key) then Find(front, key) else |front| + Find(back, key)
  {
    if front == [] {
      assert front + back == back;
    } else {
      assert (front + back)[1..] == front[1..] + back;
      FindAppended(front[1..], back, key);
    }
  }

  lemma WithoutAppended(front: seq<Entry>, back: seq<Entry>, key: Key)
    ensures Without(front + back, key)
            == if Holds(front, key) then Without(front, key) + back else front + Without(back, key)
  {
    hide Find;
    FindAppended(front, back, key);
  }

  lemma NotInFront(front: seq<Entry>, back: seq<Entry>, key: Key)
    requires Distinct(front + back) && Holds(back, key)
    ensures !Holds(front, key)
  {
    hide Find;
    var all, j := front + back, |front| + Find(back, key);
    assert all[j].key == key;
    forall i | 0 <= i < |front| ensures front[i].key != key {
      assert all[i] == front[i];
    }
  }

  /** A resident bundle is moved to the end of the stack and of the kept suffix alike. */
  lemma StackHit(front: seq<Entry>, kept: seq<Entry>, e: Entry, capacity: nat)
    requires Distinct(front + kept) && Total(kept) <= capacity
    requires front != [] ==> front[|front| - 1].nbytes + Total(kept) > capacity
    requires Holds(kept, e.key) && kept[Find(kept, e.key)] == e
    ensures Shed(Without(front + kept, e.key) + [e], capacity) == Without(kept, e.key) + [e]
  {
    hide Find; hide Total; hide Shed; hide Without; hide Distinct; hide Holds;
    NotInFront(front, kept, e.key);
    WithoutAppended(front, kept, e.key);
    HitTotal(kept, e.key);
    ShedIs(front, Without(kept, e.key) + [e], capacity);
    assert (front + Without(kept, e.key)) + [e] == front + (Without(kept, e.key) + [e]);
  }

  lemma MissLeavesKept(front: seq<Entry>, kept: seq<Entry>, key: Key)
    requires !Holds(kept, key)
    ensures Without(front + kept, key) == Without(front, key) + kept
  {
    hide Find; hide Without; hide Holds;
    WithoutAppended(front, kept, key);
    WithoutMissing(kept, key);
    if !Holds(front, key) { WithoutMissing(front, key); }
  }

  /** A missed bundle evicts from the kept suffix exactly what the longer stack sheds. */
  lemma StackMiss(front: seq<Entry>, kept: seq<Entry>, e: Entry, capacity: nat)
    requires Distinct(front + kept) && Total(kept) <= capacity && 0 < e.nbytes <= capacity
    requires front != [] ==> front[|front| - 1].nbytes + Total(kept) > capacity
    requires !Holds(kept, e.key) && (Holds(front, e.key) ==> front[Find(front, e.key)] == e)
    ensures Shed(Without(front + kept, e.key) + [e], capacity) == Shed(kept, capacity - e.nbytes) + [e]
  {
    hide Find; hide Total; hide Shed; hide Distinct; hide Holds; hide Without;
    var room := capacity - e.nbytes;
    ShedIsSuffix(kept, room);
    var f := Shed(kept, room);
    var cut := |kept| - |f|;
    var gone, older := kept[..cut], Without(front, e.key);
    MissLeavesKept(front, kept, e.key);
    assert kept == gone + f;
    Regroup(older, gone, f, [e]);
    TotalConcat(f, [e]);
    TotalOne(e);
    if gone == [] && older != [] {
      assert f == kept;
      LastWithout(front, e.key);
    }
    LastOf(older, gone);
    ShedIs(older + gone, f + [e], capacity);
  }

  lemma LastOf(a: seq<Entry>, b: seq<Entry>)
    ensures a + b != [] ==> (a + b)[|a + b| - 1] == if b == [] then a[|a| - 1] else b[|b| - 1]
  {
  }

  lemma Regroup(a: seq<Entry>, b: seq<Entry>, c: seq<Entry>, d: seq<Entry>)
    ensures (a + (b + c)) + d == (a + b) + (c + d)
  {
  }

  lemma WithoutMissing(entries: seq<Entry>, key: Key)
    requires !Holds(entries, key)
    ensures Without(entries, key) == entries
  {
  }

  lemma LastWithout(entries: seq<Entry>, key: Key)
    requires Without(entries, key) != []
    ensures var w, n := Without(entries, key), |entries| - 1;
            entries != [] && (w[|w| - 1] == entries[n] || (Holds(entries, key) && Find(entries, key) == n))
  {
    hide Find;
  }

  lemma StackStep(size: Sizes, stack: seq<Entry>, key: Key, capacity: nat, counters: Counters)
    requires Distinct(stack) && Sized(size, stack) && 0 < size(key) <= capacity
    ensures Access(Cache(capacity, Shed(stack, capacity), counters), key, size(key)).entries
            == Shed(Without(stack, key) + [Entry(key, size(key))], capacity)
    ensures Classify(Cache(capacity, Shed(stack, capacity), counters), key, size(key))
            == if Holds(Shed(stack, capacity), key) then Hit else Miss
  {
    hide Find; hide Total; hide Shed; hide Distinct;
    ShedIsSuffix(stack, capacity);
    var kept := Shed(stack, capacity);
    var front := stack[..|stack| - |kept|];
    assert stack == front + kept;
    if Holds(kept, key) {
      assert kept[Find(kept, key)] in stack;
      StackHit(front, kept, Entry(key, size(key)), capacity);
    } else {
      if Holds(front, key) { assert front[Find(front, key)] in stack; }
      StackMiss(front, kept, Entry(key, size(key)), capacity);
    }
  }

  /** Stack property: after any run, the simulator of any capacity holds exactly the most
      recently used part of one and the same recency stack that fits. */
  lemma {:induction false} CacheIsTopOfStack(capacity: nat, size: Sizes, trace: seq<Key>)
    requires SizesFit(size, trace, capacity)
    ensures Run(capacity, size, trace).entries == Shed(Stack(size, trace), capacity)
    ensures Run(capacity, size, trace).capacity == capacity
  {
    hide Find; hide Shed; hide Access; hide Distinct;
    if trace == [] {
      assert Shed([], capacity) == [] by { ShedNothing(capacity); }
    } else {
      var n := |trace| - 1;
      var before := Run(capacity, size, trace[..n]);
      CacheIsTopOfStack(capacity, size, trace[..n]);
      StackIsDistinct(size, trace[..n]);
      StackStep(size, Stack(size, trace[..n]), trace[n], capacity, before.counters);
      assert before == Cache(capacity, Shed(Stack(size, trace[..n]), capacity), before.counters);
      AccessKeepsCapacity(before, trace[n], size(trace[n]));
    }
  }

  lemma ShedNothing(capacity: nat)
    ensures Shed([], capacity) == []
  {
  }

  lemma AccessKeepsCapacity(cache: Cache, key: Key, nbytes: int)
    ensures Access(cache, key, nbytes).capacity == cache.capacity
  {
    hide Find; hide Shed;
  }

  lemma {:induction false} RunKeepsCapacity(capacity: nat, size: Sizes, trace: seq<Key>)
    ensures Run(capacity, size, trace).capacity == capacity
  {
    hide Access;
    if trace != [] {
      var n := |trace| - 1;
      RunKeepsCapacity(capacity, size, trace[..n]);
      AccessKeepsCapacity(Run(capacity, size, trace[..n]), trace[n], size(trace[n]));
    }
  }

  lemma {:induction false} ShedMonotone(entries: seq<Entry>, small: nat, large: nat)
    requires small <= large
    ensures |Shed(entries, small)| <= |Shed(entries, large)|
    ensures var a, b := Shed(entries, small), Shed(entries, large); a == b[|b| - |a|..]
  {
    if Total(entries) <= large {
      ShedIsSuffix(entries, small);
    } else {
      ShedMonotone(entries[1..], small, large);
    }
  }

  /** Inclusion: what the smaller cache holds, the larger one holds too, in the same order. */
  lemma Inclusion(small: nat, large: nat, size: Sizes, trace: seq<Key>)
    requires small <= large && SizesFit(size, trace, small)
    ensures var a, b := Run(small, size, trace).entries, Run(large, size, trace).entries;
            |a| <= |b| && a == b[|b| - |a|..]
  {
    hide Run; hide Stack; hide Shed;
    CacheIsTopOfStack(small, size, trace);
    CacheIsTopOfStack(large, size, trace);
    ShedMonotone(Stack(size, trace), small, large);
  }

  lemma RunStep(capacity: nat, size: Sizes, trace: seq<Key>, n: nat)
    requires SizesFit(size, trace, capacity) && trace != [] && n == |trace| - 1
    ensures SizesFit(size, trace[..n], capacity)
    ensures var before, after := Run(capacity, size, trace[..n]), Run(capacity, size, trace);
            var b, nbytes := before.counters, size(trace[n]);
            if Holds(before.entries, trace[n])
            then after.counters == b.(calls := b.calls + 1, hits := b.hits + 1, byteHits := b.byteHits + nbytes)
            else after.counters == b.(calls := b.calls + 1, misses := b.misses + 1, byteMisses := b.byteMisses + nbytes,
                                      evictions := after.counters.evictions)
  {
    hide Find; hide Stack; hide Distinct;
    var before := Run(capacity, size, trace[..n]);
    CacheIsTopOfStack(capacity, size, trace[..n]);
    StackIsDistinct(size, trace[..n]);
    StackStep(size, Stack(size, trace[..n]), trace[n], capacity, before.counters);
  }

  lemma HoldsSuffix(entries: seq<Entry>, from: nat, key: Key)
    requires from <= |entries| && Holds(entries[from..], key)
    ensures Holds(entries, key)
  {
    hide Find;
    HoldsIff(entries[from..], key);
    HoldsIff(entries, key);
  }

  /** Hits, in number and in bytes, never fall as capacity grows; misses never rise. */
  lemma {:induction false} HitsAreMonotone(small: nat, large: nat, size: Sizes, trace: seq<Key>)
    requires small <= large && SizesFit(size, trace, small)
    ensures var a, b := Run(small, size, trace).counters, Run(large, size, trace).counters;
            a.calls == b.calls == |trace| && a.hits <= b.hits && a.byteHits <= b.byteHits &&
            b.misses <= a.misses && b.byteMisses <= a.byteMisses && b.hits + b.misses == b.calls
  {
    hide Find; hide Holds; hide Access;
    if trace != [] {
      hide Run;
      var n := |trace| - 1;
      RunStep(small, size, trace, n);
      RunStep(large, size, trace, n);
      HitsAreMonotone(small, large, size, trace[..n]);
      Inclusion(small, large, size, trace[..n]);
      var a, b := Run(small, size, trace[..n]).entries, Run(large, size, trace[..n]).entries;
      if Holds(a, trace[n]) { HoldsSuffix(b, |b| - |a|, trace[n]); }
    }
  }

  /** Every admitted bundle is either still resident or was evicted. */
  lemma {:induction false} AdmissionsAreConserved(capacity: nat, size: Sizes, trace: seq<Key>)
    requires SizesFit(size, trace, capacity)
    ensures var run := Run(capacity, size, trace); run.counters.misses == |run.entries| + run.counters.evictions
  {
    hide Find; hide Stack; hide Distinct; hide Shed;
    if trace != [] {
      var n := |trace| - 1;
      var before := Run(capacity, size, trace[..n]);
      AdmissionsAreConserved(capacity, size, trace[..n]);
      CacheIsTopOfStack(capacity, size, trace[..n]);
      StackIsDistinct(size, trace[..n]);
      StackStep(size, Stack(size, trace[..n]), trace[n], capacity, before.counters);
    }
  }

  lemma StackSize(size: Sizes, trace: seq<Key>, key: Key)
    requires Holds(Stack(size, trace), key)
    ensures Stack(size, trace)[Find(Stack(size, trace), key)] == Entry(key, size(key))
  {
    hide Find; hide Stack; hide Distinct;
    StackIsDistinct(size, trace);
    assert Stack(size, trace)[Find(Stack(size, trace), key)] in Stack(size, trace);
  }

  lemma StackGrows(size: Sizes, trace: seq<Key>, n: nat)
    requires trace != [] && n == |trace| - 1
    ensures var before, after := Stack(size, trace[..n]), Stack(size, trace);
            |after| == |before| + (if Holds(before, trace[n]) then 0 else 1) && Total(before) <= Total(after)
  {
    var before, e := Stack(size, trace[..n]), Entry(trace[n], size(trace[n]));
    assert Stack(size, trace) == Without(before, e.key) + [e];
    hide *;
    WithoutTotal(before, e.key);
    WithoutLength(before, e.key);
    TotalConcat(Without(before, e.key), [e]);
    TotalOne(e);
    if Holds(before, e.key) { StackSize(size, trace[..n], e.key); }
  }

  lemma WithoutLength(entries: seq<Entry>, key: Key)
    ensures |Without(entries, key)| == |entries| - if Holds(entries, key) then 1 else 0
  {
    hide Find;
  }

  /** A cache that can hold every accessed bundle at once evicts nothing and misses each
      bundle exactly once. */
  lemma {:induction false} NothingEvictedWhenAllFits(capacity: nat, size: Sizes, trace: seq<Key>)
    requires SizesFit(size, trace, capacity) && Total(Stack(size, trace)) <= capacity
    ensures var run := Run(capacity, size, trace);
            run.entries == Stack(size, trace) && run.counters.evictions == 0 &&
            run.counters.misses == |Stack(size, trace)|
  {
    hide Find; hide Access; hide Holds;
    CacheIsTopOfStack(capacity, size, trace);
    AdmissionsAreConserved(capacity, size, trace);
    if trace != [] {
      hide Run; hide Stack; hide Total;
      var n := |trace| - 1;
      StackGrows(size, trace, n);
      RunStep(capacity, size, trace, n);
      NothingEvictedWhenAllFits(capacity, size, trace[..n]);
    }
  }

  // ----- which accesses hit, told by the trace alone -----

  /** The bytes of the bundles of a trace, each counted once. */
  function DistinctBytes(size: Sizes, trace: seq<Key>): nat {
    if trace == [] then 0
    else
      var n := |trace| - 1;
      DistinctBytes(size, trace[..n]) + if trace[n] in trace[..n] then 0 else size(trace[n])
  }

  /** Position `j` is the latest access of `key`. */
  predicate IsLatest(trace: seq<Key>, key: Key, j: nat) {
    j < |trace| && trace[j] == key && key !in trace[j + 1..]
  }

  /** The entries from that of `key` up to the most recent one. */
  function From(entries: seq<Entry>, key: Key): seq<Entry> {
    entries[Find(entries, key)..]
  }

  /** Another access moves its bundle behind everything from `key` on. */
  lemma FromStep(stack: seq<Entry>, key: Key, e: Entry)
    requires Distinct(stack) && Holds(stack, key) && e.key != key
    ensures From(Without(stack, e.key) + [e], key) == Without(From(stack, key), e.key) + [e]
  {
    hide Find; hide Without; hide Distinct; hide Holds;
    var p := Find(stack, key);
    assert p < |stack| by { HoldsMeans(stack, key); }
    var front, above := stack[..p], stack[p..];
    assert stack == front + above && above[0] == stack[p];
    var older, newer := if Holds(front, e.key) then Without(front, e.key) else front, Without(above, e.key);
    WithoutAppended(front, above, e.key);
    if Holds(front, e.key) {
      if Holds(above, e.key) { NotInFront(front, above, e.key); }
      WithoutMissing(above, e.key);
    }
    assert Without(stack, e.key) + [e] == older + (newer + [e]);
    FrontHasNot(front, older, key, e.key);
    FirstStays(above, e.key);
    FindAppended(older, newer + [e], key);
    HoldsMeans(older, key);
    FindFirst(newer + [e], key);
  }

  lemma HoldsMeans(entries: seq<Entry>, key: Key)
    ensures Holds(entries, key) <==> Find(entries, key) < |entries|
  {
  }

  lemma FindFirst(entries: seq<Entry>, key: Key)
    requires entries != [] && entries[0].key == key
    ensures Find(entries, key) == 0
  {
  }

  lemma FirstStays(entries: seq<Entry>, key: Key)
    requires entries != [] && entries[0].key != key
    ensures Without(entries, key) != [] && Without(entries, key)[0] == entries[0]
  {
  }

  lemma FrontHasNot(front: seq<Entry>, older: seq<Entry>, key: Key, other: Key)
    requires forall i :: 0 <= i < |front| ==> front[i].key != key
    requires older == if Holds(front, other) then Without(front, other) else front
    ensures !Holds(older, key)
  {
    hide Find;
  }

  /** From an entry on, the stack holds what was accessed since, each bundle once. */
  lemma {:induction false} StackSince(size: Sizes, trace: seq<Key>, key: Key, j: nat)
    requires IsLatest(trace, key, j)
    ensures Holds(Stack(size, trace), key)
    ensures Total(From(Stack(size, trace), key)) == DistinctBytes(size, trace[j..])
    ensures forall k :: Holds(From(Stack(size, trace), key), k) <==> k in trace[j..]
    decreases |trace|
  {
    hide Find; hide Without; hide Distinct; hide Holds; hide Total; hide From; hide Stack;
    var n := |trace| - 1;
    var before, c := Stack(size, trace[..n]), trace[n];
    var e := Entry(c, size(c));
    assert Stack(size, trace) == Without(before, c) + [e] by { StackSnoc(size, trace); }
    StackIsDistinct(size, trace[..n]);
    assert Holds(Stack(size, trace), key) by {
      StackIsDistinct(size, trace);
      HoldsIff(Stack(size, trace), key);
      assert trace[j] in trace;
    }
    var since := trace[j..];
    assert since[..|since| - 1] == trace[j..n] && since[|since| - 1] == c;
    WithoutDistinct(before, e);
    if j == n {
      LatestIsLast(Without(before, c), e);
      assert trace[j..n] == [] && since == [c];
    } else {
      assert IsLatest(trace[..n], key, j) by { assert trace[j + 1..] == trace[..n][j + 1..] + [c]; }
      assert c != key by { assert c in trace[j + 1..]; }
      StackSince(size, trace[..n], key, j);
      assert trace[..n][j..] == trace[j..n] && since == trace[j..n] + [c];
      FromStep(before, key, e);
      FromIsDistinct(before, key, size);
      MoveToTop(From(before, key), e, size);
    }
  }

  lemma StackSnoc(size: Sizes, trace: seq<Key>)
    requires trace != []
    ensures var n := |trace| - 1;
            Stack(size, trace) == Without(Stack(size, trace[..n]), trace[n]) + [Entry(trace[n], size(trace[n]))]
  {
    hide Without;
  }

  lemma LatestIsLast(older: seq<Entry>, e: Entry)
    requires Distinct(older + [e])
    ensures Holds(older + [e], e.key) && From(older + [e], e.key) == [e] && Total([e]) == e.nbytes
    ensures forall k :: Holds([e], k) <==> k == e.key
  {
    hide Find; hide Total;
    TotalOne(e);
    var all := older + [e];
    assert all[|older|] == e;
    forall i | 0 <= i < |older| ensures all[i].key != e.key {}
    forall k ensures Holds([e], k) <==> k == e.key { HoldsIff([e], k); }
  }

  lemma FromIsDistinct(entries: seq<Entry>, key: Key, size: Sizes)
    requires Distinct(entries) && Sized(size, entries)
    ensures Distinct(From(entries, key)) && Sized(size, From(entries, key))
  {
    hide Find;
  }

  lemma MoveToTop(entries: seq<Entry>, e: Entry, size: Sizes)
    requires Distinct(entries) && Sized(size, entries) && e.nbytes == size(e.key)
    ensures Total(Without(entries, e.key) + [e]) == Total(entries) + if Holds(entries, e.key) then 0 else e.nbytes
    ensures forall k :: Holds(Without(entries, e.key) + [e], k) <==> Holds(entries, k) || k == e.key
  {
    hide Find; hide Total; hide Without; hide Holds; hide Distinct;
    var all := Without(entries, e.key) + [e];
    WithoutTotal(entries, e.key);
    TotalConcat(Without(entries, e.key), [e]);
    TotalOne(e);
    WithoutMembers(entries, e.key);
    HoldsMeans(entries, e.key);
    if Holds(entries, e.key) { assert entries[Find(entries, e.key)] in entries; }
    forall k ensures Holds(all, k) <==> Holds(entries, k) || k == e.key {
      HoldsIff(all, k);
      HoldsIff(entries, k);
      assert e in all && forall x :: x in all <==> x in Without(entries, e.key) || x == e;
    }
  }

  /** An entry survives shedding exactly when everything from it on fits. */
  lemma ShedKeepsIff(entries: seq<Entry>, key: Key, room: nat)
    requires Distinct(entries) && Holds(entries, key)
    ensures Holds(Shed(entries, room), key) <==> Total(From(entries, key)) <= room
  {
    hide Find; hide Total; hide Shed;
    ShedIsSuffix(entries, room);
    var kept, p := Shed(entries, room), Find(entries, key);
    var cut := |entries| - |kept|;
    if p < cut {
      assert entries[p..] == entries[p..cut - 1] + ([entries[cut - 1]] + entries[cut..]);
      TotalConcat(entries[p..cut - 1], [entries[cut - 1]] + entries[cut..]);
      TotalConcat([entries[cut - 1]], entries[cut..]);
      TotalOne(entries[cut - 1]);
      forall i | 0 <= i < |kept| ensures kept[i].key != key { assert kept[i] == entries[cut + i]; }
    } else {
      assert kept == entries[cut..p] + entries[p..] && kept[p - cut] == entries[p];
      TotalConcat(entries[cut..p], entries[p..]);
    }
  }

  /** The hit law of byte-budget LRU. A bundle is resident exactly when it was accessed and
      everything accessed since its latest access, itself included and each bundle counted
      once, fits in the cache. */
  lemma ResidentIffReuseFits(capacity: nat, size: Sizes, trace: seq<Key>, key: Key)
    requires SizesFit(size, trace, capacity)
    ensures Holds(Run(capacity, size, trace).entries, key) <==>
            exists j: nat :: IsLatest(trace, key, j) && DistinctBytes(size, trace[j..]) <= capacity
  {
    hide Find; hide Total; hide Shed; hide Distinct; hide Holds; hide From; hide Run; hide Stack;
    CacheIsTopOfStack(capacity, size, trace);
    StackIsDistinct(size, trace);
    var stack := Stack(size, trace);
    if key in trace {
      var j := Latest(trace, key);
      StackSince(size, trace, key, j);
      ShedKeepsIff(stack, key, capacity);
      assert forall i: nat :: IsLatest(trace, key, i) ==> i == j;
    } else {
      HoldsIff(Shed(stack, capacity), key);
      ShedIsSuffix(stack, capacity);
      assert forall e :: e in Shed(stack, capacity) ==> e in stack;
    }
  }

  ghost function Latest(trace: seq<Key>, key: Key): (j: nat)
    requires key in trace
    ensures IsLatest(trace, key, j)
  {
    var n := |trace| - 1;
    if trace[n] == key then n
    else
      assert trace == trace[..n] + [trace[n]];
      var j := Latest(trace[..n], key);
      assert trace[j + 1..] == trace[..n][j + 1..] + [trace[n]];
      j
  }

  /** Access `i` meets its bundle with everything accessed since fitting in the cache. */
  ghost predicate ReuseFits(capacity: nat, size: Sizes, trace: seq<Key>, i: nat)
    requires i < |trace|
  {
    exists j: nat :: IsLatest(trace[..i], trace[i], j) && DistinctBytes(size, trace[j..i]) <= capacity
  }

  /** The accesses of the trace whose reuse fits, in number and in bytes. */
  ghost function Reuses(capacity: nat, size: Sizes, trace: seq<Key>): nat {
    if trace == [] then 0
    else
      var n := |trace| - 1;
      Reuses(capacity, size, trace[..n]) + if ReuseFits(capacity, size, trace, n) then 1 else 0
  }

  ghost function ReusedBytes(capacity: nat, size: Sizes, trace: seq<Key>): nat {
    if trace == [] then 0
    else
      var n := |trace| - 1;
      ReusedBytes(capacity, size, trace[..n]) + if ReuseFits(capacity, size, trace, n) then size(trace[n]) else 0
  }

  ghost function AccessedBytes(size: Sizes, trace: seq<Key>): nat {
    if trace == [] then 0
    else AccessedBytes(size, trace[..|trace| - 1]) + size(trace[|trace| - 1])
  }

  /** The counters of a run are counts over the trace: the hits are the accesses whose reuse
      fits, every other access is a miss, and the byte counters add up their sizes. */
  lemma {:induction false} HitsAreReuses(capacity: nat, size: Sizes, trace: seq<Key>)
    requires SizesFit(size, trace, capacity)
    ensures var c := Run(capacity, size, trace).counters;
            && c.calls == |trace| && c.hits == Reuses(capacity, size, trace)
            && c.misses == |trace| - Reuses(capacity, size, trace)
            && c.byteHits == ReusedBytes(capacity, size, trace)
            && c.byteMisses == AccessedBytes(size, trace) - ReusedBytes(capacity, size, trace)
  {
    hide Holds; hide Access; hide DistinctBytes; hide IsLatest;
    if trace != [] {
      hide Run;
      var n := |trace| - 1;
      RunStep(capacity, size, trace, n);
      HitsAreReuses(capacity, size, trace[..n]);
      ResidentIffReuseFits(capacity, size, trace[..n], trace[n]);
      ReuseIs(capacity, size, trace, n);
    }
  }

  lemma ReuseIs(capacity: nat, size: Sizes, trace: seq<Key>, n: nat)
    requires n < |trace|
    ensures ReuseFits(capacity, size, trace, n) <==>
            exists j: nat :: IsLatest(trace[..n], trace[n], j) && DistinctBytes(size, trace[..n][j..]) <= capacity
  {
    hide DistinctBytes;
    assert forall j: nat :: IsLatest(trace[..n], trace[n], j) ==> trace[j..n] == trace[..n][j..];
  }

  // ----- the hit curve over working-set fractions -----

  /** The distinct bundles of a trace. */
  function WorkingSet(trace: seq<Key>): set<Key> {
    set k | k in trace
  }

  const UNIT: Sizes := (k: Key) => 1

  lemma {:induction false} UnitStack(trace: seq<Key>)
    ensures |Stack(UNIT, trace)| == Total(Stack(UNIT, trace)) == |WorkingSet(trace)|
  {
    hide Find; hide Total; hide Holds;
    if trace == [] {
      assert Total([]) == 0 by { TotalNothing(); }
    } else {
      var n := |trace| - 1;
      var before, e := Stack(UNIT, trace[..n]), Entry(trace[n], 1);
      UnitStack(trace[..n]);
      StackGrows(UNIT, trace, n);
      StackIsDistinct(UNIT, trace[..n]);
      HoldsIff(before, trace[n]);
      assert trace == trace[..n] + [trace[n]];
      assert WorkingSet(trace) == WorkingSet(trace[..n]) + {trace[n]};
      assert Holds(before, trace[n]) <==> trace[n] in WorkingSet(trace[..n]) by {
        if trace[n] in trace[..n] { assert e in before; }
      }
      UnitTotal(Stack(UNIT, trace), trace);
    }
  }

  lemma TotalNothing()
    ensures Total([]) == 0
  {
  }

  lemma UnitTotal(entries: seq<Entry>, trace: seq<Key>)
    requires entries == Stack(UNIT, trace)
    ensures Total(entries) == |entries|
  {
    StackIsDistinct(UNIT, trace);
    OnesTotal(entries);
  }

  lemma {:induction false} OnesTotal(entries: seq<Entry>)
    requires forall e :: e in entries ==> e.nbytes == 1
    ensures Total(entries) == |entries|
  {
    if entries != [] { OnesTotal(entries[1..]); }
  }

  function Ceil(x: real): int {
    -((-x).Floor)
  }

  /** The least whole number of experts that is at least the fraction, and at least one. */
  function CapacityFor(workingSet: nat, fraction: real): (c: nat)
    ensures c > 0 && c as real >= workingSet as real * fraction
    ensures c > 1 ==> (c - 1) as real < workingSet as real * fraction
  {
    var c := Ceil(workingSet as real * fraction);
    if c > 1 then c else 1
  }

  datatype Row = Row(fraction: real, capacityExperts: nat, residentBytes: nat, counters: Counters)
  datatype Curve = Curve(rows: seq<Row>) | BadFraction

  function CurveRow(trace: seq<Key>, fraction: real): Row {
    var capacity := CapacityFor(|WorkingSet(trace)|, fraction);
    var run := Run(capacity, UNIT, trace);
    Row(fraction, capacity, Total(run.entries), run.counters)
  }

  lemma UnitSizesFit(trace: seq<Key>, capacity: nat)
    requires capacity > 0
    ensures SizesFit(UNIT, trace, capacity)
  {
  }

  /** `simulate_lru_curve`; `BadFraction` is the source's exception. */
  method SimulateLruCurve(accesses: seq<Key>, capacities: seq<real>) returns (curve: Curve)
    ensures accesses == [] ==> curve == Curve([])
    ensures accesses != [] ==> (curve.Curve? <==> forall i :: 0 <= i < |capacities| ==> 0.0 < capacities[i] <= 1.0)
    ensures accesses != [] && curve.Curve? ==>
              |curve.rows| == |capacities| &&
              forall i :: 0 <= i < |capacities| ==> curve.rows[i] == CurveRow(accesses, capacities[i])
  {
    hide Run; hide Access; hide Total; hide Distinct; hide Find;
    var workingSet := |WorkingSet(accesses)|;
    if accesses == [] {
      return Curve([]);
    }
    var rows: seq<Row> := [];
    for i := 0 to |capacities|
      invariant |rows| == i
      invariant forall j :: 0 <= j < i ==> 0.0 < capacities[j] <= 1.0
      invariant forall j :: 0 <= j < i ==> rows[j] == CurveRow(accesses, capacities[j])
    {
      if !(0.0 < capacities[i] <= 1.0) {
        return BadFraction;
      }
      var row := SimulateRow(accesses, capacities[i], CapacityFor(workingSet, capacities[i]));
      rows := rows + [row];
    }
    return Curve(rows);
  }

  method SimulateRow(accesses: seq<Key>, fraction: real, capacity: nat) returns (row: Row)
    requires capacity > 0
    ensures var run := Run(capacity, UNIT, accesses);
            row == Row(fraction, capacity, Total(run.entries), run.counters)
  {
    hide Access; hide Total; hide Distinct; hide Find;
    var simulator := new LruCacheSimulator(capacity);
    for i := 0 to |accesses|
      invariant simulator.Valid() && simulator.capacityBytes == capacity && fresh(simulator)
      invariant simulator.State() == Run(capacity, UNIT, accesses[..i])
    {
      var _ := simulator.AccessBundle(accesses[i], 1);
      assert accesses[..i + 1][..i] == accesses[..i];
    }
    assert accesses[..|accesses|] == accesses;
    row := Row(fraction, simulator.capacityBytes, simulator.residentBytes, simulator.counters);
  }

  /** The curve never falls: a larger fraction has at least the hits of a smaller one. */
  lemma CurveIsMonotone(trace: seq<Key>, low: real, high: real)
    requires 0.0 < low <= high <= 1.0
    ensures var a, b := CurveRow(trace, low).counters, CurveRow(trace, high).counters;
            a.hits <= b.hits && b.misses <= a.misses
  {
    hide Run;
    var w := |WorkingSet(trace)|;
    assert w as real * low <= w as real * high;
    UnitSizesFit(trace, CapacityFor(w, low));
    HitsAreMonotone(CapacityFor(w, low), CapacityFor(w, high), UNIT, trace);
  }

  /** A row of the curve: the capacity is the fraction of the working set rounded up, the hits
      are the accesses whose reuse fits in it, and what was missed is resident or evicted. */
  lemma CurveRowIsExact(trace: seq<Key>, fraction: real)
    requires 0.0 < fraction
    ensures var row := CurveRow(trace, fraction);
            var exact := |WorkingSet(trace)| as real * fraction;
            && row.fraction == fraction
            && exact <= row.capacityExperts as real
            && (row.capacityExperts > 1 ==> (row.capacityExperts - 1) as real < exact)
            && row.counters.hits == Reuses(row.capacityExperts, UNIT, trace)
            && row.counters.misses == |trace| - row.counters.hits
            && row.counters.misses == row.residentBytes + row.counters.evictions
            && row.residentBytes <= row.capacityExperts
  {
    hide Run; hide Stack; hide Total; hide Shed; hide Reuses; hide Distinct; hide CapacityFor; hide WorkingSet;
    var capacity := CapacityFor(|WorkingSet(trace)|, fraction);
    UnitSizesFit(trace, capacity);
    HitsAreReuses(capacity, UNIT, trace);
    AdmissionsAreConserved(capacity, UNIT, trace);
    CacheIsTopOfStack(capacity, UNIT, trace);
    StackIsDistinct(UNIT, trace);
    ShedIsSuffix(Stack(UNIT, trace), capacity);
    OnesTotal(Run(capacity, UNIT, trace).entries);
  }

  /** At the full working set nothing is evicted and only first uses miss. */
  lemma FullFractionMissesOnce(trace: seq<Key>)
    ensures var c := CurveRow(trace, 1.0).counters;
            c.evictions == 0 && c.misses == |WorkingSet(trace)| && c.hits == |trace| - |WorkingSet(trace)|
  {
    hide Run; hide Stack; hide Total;
    var capacity := CapacityFor(|WorkingSet(trace)|, 1.0);
    UnitSizesFit(trace, capacity);
    UnitStack(trace);
    assert |WorkingSet(trace)| as real * 1.0 == |WorkingSet(trace)| as real;
    NothingEvictedWhenAllFits(capacity, UNIT, trace);
    HitsAreMonotone(capacity, capacity, UNIT, trace);
  }
}
