/** Trace-trained prediction of next-layer experts: training gives conditional distributions,
    prediction mixes them, and scheduling spends bounded candidates and bytes per call.
    Probabilities are exact reals. */
module Predictor {

  datatype Option<+T> = None | Some(value: T)
  datatype Result<+T> = Ok(value: T) | ValueError

  datatype Candidate = Candidate(expert: int, confidence: real)
  type Sources = map<int, seq<Candidate>>

  datatype TransitionPredictor = TransitionPredictor(
    formatVersion: int, modelType: string, numLayers: int, numExperts: int, transitions: map<int, Sources>)

  // ----- ranking by weight, ties by expert id -----

  predicate Before(weights: map<int, real>, a: int, b: int)
    requires a in weights && b in weights
  {
    weights[a] > weights[b] || (weights[a] == weights[b] && a < b)
  }

  ghost predicate Ranked(weights: map<int, real>, order: seq<int>) {
    && (forall i :: 0 <= i < |order| ==> order[i] in weights)
    && (forall e :: e in weights ==> e in order)
    && (forall i, j :: 0 <= i < j < |order| ==> Before(weights, order[i], order[j]))
  }

  /** `sorted` by descending weight, then by id. */
  method Rank(weights: map<int, real>) returns (order: seq<int>)
    ensures Ranked(weights, order)
  {
    hide Ranked;
    order := [];
    var rest, done: map<int, real> := weights, map[];
    NothingRanked();
    assert weights == done + rest;
    while rest.Keys != {}
      invariant rest.Keys !! done.Keys && weights == done + rest
      invariant Ranked(done, order)
      decreases |rest|
    {
      var e := Pick(rest.Keys);
      order := Place(done, order, e, rest[e]);
      MoveOver(done, rest, e);
      done, rest := done[e := rest[e]], rest - {e};
    }
    assert done + rest == done;
  }

  method Pick<T(==)>(s: set<T>) returns (x: T)
    requires s != {}
    ensures x in s
  {
    x :| x in s;
  }

  lemma MoveOver(done: map<int, real>, rest: map<int, real>, e: int)
    requires e in rest && rest.Keys !! done.Keys
    ensures done + rest == done[e := rest[e]] + (rest - {e})
    ensures (rest - {e}).Keys !! done[e := rest[e]].Keys && |rest - {e}| < |rest|
  {
    assert rest.Keys == (rest - {e}).Keys + {e};
  }

  lemma NothingRanked()
    ensures Ranked(map[], [])
  {
  }

  method Place(done: map<int, real>, order: seq<int>, e: int, weight: real) returns (after: seq<int>)
    requires Ranked(done, order) && e !in done
    ensures Ranked(done[e := weight], after)
  {
    var all, i := done[e := weight], 0;
    while i < |order| && Before(all, order[i], e)
      invariant i <= |order|
      invariant forall j :: 0 <= j < i ==> Before(all, order[j], e)
    {
      i := i + 1;
    }
    after := order[..i] + [e] + order[i..];
    PlacedIsRanked(done, order, e, weight, i);
  }

  function Inserted(order: seq<int>, i: nat, e: int): seq<int>
    requires i <= |order|
  {
    order[..i] + [e] + order[i..]
  }

  lemma InsertedIs(order: seq<int>, i: nat, e: int)
    requires i <= |order|
    ensures var after := Inserted(order, i, e);
            && |after| == |order| + 1 && after[i] == e
            && (forall j :: 0 <= j < i ==> after[j] == order[j])
            && (forall j :: i < j < |after| ==> after[j] == order[j - 1])
    ensures forall x :: x in Inserted(order, i, e) <==> x == e || x in order
  {
    assert order == order[..i] + order[i..];
  }

  lemma PlacedIsRanked(done: map<int, real>, order: seq<int>, e: int, weight: real, i: nat)
    requires Ranked(done, order) && e !in done && i <= |order|
    requires forall j :: 0 <= j < i ==> Before(done[e := weight], order[j], e)
    requires i < |order| ==> !Before(done[e := weight], order[i], e)
    ensures Ranked(done[e := weight], Inserted(order, i, e))
  {
    var all := done[e := weight];
    forall j | i <= j < |order| ensures Before(all, e, order[j]) {
      if i < j { assert Before(done, order[i], order[j]); }
    }
    forall j, k | 0 <= j < k < |order| ensures Before(all, order[j], order[k]) {
      assert Before(done, order[j], order[k]);
    }
    InsertedIs(order, i, e);
    hide Before; hide Inserted;
    var after := Inserted(order, i, e);
    forall j, k | 0 <= j < k < |after| ensures Before(all, after[j], after[k]) {
      if j != i && k != i {
        assert Before(all, order[if j < i then j else j - 1], order[if k < i then k else k - 1]);
      }
    }
    assert forall x :: x in all ==> x in after;
    assert forall j :: 0 <= j < |after| ==> after[j] in all;
  }

  // ----- grouping the trace -----

  /** `rest` stands for the fields that only matter when two events are compared. */
  datatype Event = Event(requestId: string, phase: string, token: int, layer: int, experts: seq<int>,
                         numExperts: Option<int>, rest: string)
  datatype GroupKey = GroupKey(requestId: string, phase: string, token: int)
  type Group = map<int, Event>

  function GroupOf(e: Event): GroupKey {
    GroupKey(e.requestId, e.phase, e.token)
  }

  ghost predicate NoConflict(events: seq<Event>) {
    forall a, b :: a in events && b in events && GroupOf(a) == GroupOf(b) && a.layer == b.layer ==> a == b
  }

  /** `grouped` files each event under its token and layer, and holds nothing else. */
  ghost predicate Grouped(events: seq<Event>, order: seq<GroupKey>, grouped: map<GroupKey, Group>) {
    && (forall k :: k in order <==> k in grouped)
    && (forall i, j :: 0 <= i < j < |order| ==> order[i] != order[j])
    && (forall k, l :: k in grouped && l in grouped[k] ==>
          grouped[k][l] in events && GroupOf(grouped[k][l]) == k && grouped[k][l].layer == l)
    && (forall e :: e in events ==> GroupOf(e) in grouped && e.layer in grouped[GroupOf(e)] && grouped[GroupOf(e)][e.layer] == e)
  }

  method GroupEvents(events: seq<Event>) returns (ok: bool, order: seq<GroupKey>, grouped: map<GroupKey, Group>)
    ensures ok <==> NoConflict(events)
    ensures ok <==>
            forall a, b ::
              (a in events && b in events && a.requestId == b.requestId && a.phase == b.phase && a.token == b.token &&
               a.layer == b.layer) ==> a == b
    ensures ok ==> Grouped(events, order, grouped)
  {
    order, grouped := [], map[];
    for i := 0 to |events|
      invariant Grouped(events[..i], order, grouped)
    {
      var event, key := events[i], GroupOf(events[i]);
      if key in grouped && event.layer in grouped[key] && grouped[key][event.layer] != event {
        assert grouped[key][event.layer] in events[..i];
        return false, order, grouped;
      }
      if key !in grouped {
        order, grouped := order + [key], grouped[key := map[]];
      }
      grouped := grouped[key := grouped[key][event.layer := event]];
      assert events[..i + 1] == events[..i] + [event];
    }
    assert events[..|events|] == events;
    ok := true;
  }

  // ----- counting transitions -----

  function Repeat(n: nat, m: multiset<int>): multiset<int> {
    if n == 0 then multiset{} else Repeat(n - 1, m) + m
  }

  /** What one token adds: each source of a layer sees every target of the next. */
  function Contribution(g: Group, layer: int, source: int): multiset<int> {
    if layer in g && layer + 1 in g then Repeat(multiset(g[layer].experts)[source], multiset(g[layer + 1].experts))
    else multiset{}
  }

  /** All targets observed after `source` in `layer`, with multiplicity. */
  function Targets(groups: seq<Group>, layer: int, source: int): multiset<int> {
    if groups == [] then multiset{}
    else Targets(groups[..|groups| - 1], layer, source) + Contribution(groups[|groups| - 1], layer, source)
  }

  type Counts = map<int, map<int, multiset<int>>>

  function CountOf(counts: Counts, layer: int, source: int): multiset<int> {
    if layer in counts && source in counts[layer] then counts[layer][source] else multiset{}
  }

  ghost predicate NoEmptyCounts(counts: Counts) {
    && (forall l :: l in counts ==> counts[l] != map[])
    && (forall l, s :: l in counts && s in counts[l] ==> counts[l][s] != multiset{})
  }

  /** `counts[layer][source][target] += 1`. */
  function AddCount(counts: Counts, layer: int, source: int, target: int): Counts {
    var sources := if layer in counts then counts[layer] else map[];
    counts[layer := sources[source := CountOf(counts, layer, source) + multiset{target}]]
  }

  lemma AddCountStaysNonEmpty(counts: Counts, layer: int, source: int, target: int)
    requires NoEmptyCounts(counts)
    ensures NoEmptyCounts(AddCount(counts, layer, source, target))
  {
    var after := AddCount(counts, layer, source, target);
    assert source in after[layer] && target in after[layer][source];
  }

  lemma AddCountAt(counts: Counts, layer: int, source: int, target: int, l: int, s: int)
    ensures CountOf(AddCount(counts, layer, source, target), l, s) ==
            CountOf(counts, l, s) + if l == layer && s == source then multiset{target} else multiset{}
  {
  }

  lemma AddCountIs(counts: Counts, layer: int, source: int, target: int)
    requires NoEmptyCounts(counts)
    ensures NoEmptyCounts(AddCount(counts, layer, source, target))
    ensures forall l, s :: CountOf(AddCount(counts, layer, source, target), l, s) ==
                           CountOf(counts, l, s) + if l == layer && s == source then multiset{target} else multiset{}
  {
    hide CountOf; hide AddCount; hide NoEmptyCounts;
    AddCountStaysNonEmpty(counts, layer, source, target);
    forall l, s
      ensures CountOf(AddCount(counts, layer, source, target), l, s) ==
              CountOf(counts, l, s) + if l == layer && s == source then multiset{target} else multiset{} {
      AddCountAt(counts, layer, source, target, l, s);
    }
  }

  /** `after` is `before` plus the given additions. */
  ghost predicate Adds(before: Counts, after: Counts, added: (int, int) -> multiset<int>) {
    NoEmptyCounts(after) && forall l, s :: CountOf(after, l, s) == CountOf(before, l, s) + added(l, s)
  }

  function SourceTargets(layer: int, source: int, targets: seq<int>, l: int, s: int): multiset<int> {
    if l == layer && s == source then multiset(targets) else multiset{}
  }

  /** One source, seen before all targets of the next layer. */
  method CountSource(before: Counts, layer: int, source: int, targets: seq<int>) returns (counts: Counts)
    requires NoEmptyCounts(before)
    ensures Adds(before, counts, (l, s) => SourceTargets(layer, source, targets, l, s))
  {
    hide AddCount; hide CountOf; hide NoEmptyCounts; hide SourceTargets;
    counts := before;
    NoTargets(layer, source);
    for j := 0 to |targets|
      invariant NoEmptyCounts(counts)
      invariant forall l, s :: CountOf(counts, l, s) == CountOf(before, l, s) + SourceTargets(layer, source, targets[..j], l, s)
    {
      AddCountIs(counts, layer, source, targets[j]);
      OneMoreTarget(layer, source, targets[..j], targets[j]);
      counts := AddCount(counts, layer, source, targets[j]);
      assert targets[..j + 1] == targets[..j] + [targets[j]];
    }
    assert targets[..|targets|] == targets;
  }

  lemma NoTargets(layer: int, source: int)
    ensures forall l, s :: SourceTargets(layer, source, [], l, s) == multiset{}
  {
  }

  lemma OneMoreTarget(layer: int, source: int, targets: seq<int>, target: int)
    ensures forall l, s :: SourceTargets(layer, source, targets + [target], l, s) ==
              SourceTargets(layer, source, targets, l, s) + if l == layer && s == source then multiset{target} else multiset{}
  {
  }

  function LayerTargets(layer: int, sources: seq<int>, targets: seq<int>, l: int, s: int): multiset<int> {
    if l == layer then Repeat(multiset(sources)[s], multiset(targets)) else multiset{}
  }

  /** One layer of one token. */
  method CountLayer(before: Counts, layer: int, sources: seq<int>, targets: seq<int>) returns (counts: Counts)
    requires NoEmptyCounts(before)
    ensures Adds(before, counts, (l, s) => LayerTargets(layer, sources, targets, l, s))
  {
    hide CountOf; hide NoEmptyCounts; hide LayerTargets; hide SourceTargets;
    counts := before;
    NoSources(layer, targets);
    for i := 0 to |sources|
      invariant NoEmptyCounts(counts)
      invariant forall l, s :: CountOf(counts, l, s) == CountOf(before, l, s) + LayerTargets(layer, sources[..i], targets, l, s)
    {
      counts := CountSource(counts, layer, sources[i], targets);
      OneMoreSource(layer, sources[..i], sources[i], targets);
      assert sources[..i + 1] == sources[..i] + [sources[i]];
    }
    assert sources[..|sources|] == sources;
  }

  lemma NoSources(layer: int, targets: seq<int>)
    ensures forall l, s :: LayerTargets(layer, [], targets, l, s) == multiset{}
  {
  }

  lemma OneMoreSource(layer: int, sources: seq<int>, source: int, targets: seq<int>)
    ensures forall l, s :: LayerTargets(layer, sources + [source], targets, l, s) ==
              LayerTargets(layer, sources, targets, l, s) + SourceTargets(layer, source, targets, l, s)
  {
    var n, m := multiset(sources)[source], multiset(targets);
    assert Repeat(n + 1, m) == Repeat(n, m) + m;
  }

  /** The layers of one token that are done, those not in `left`. */
  function Partial(g: Group, left: set<int>, l: int, s: int): multiset<int> {
    if l in left then multiset{} else Contribution(g, l, s)
  }

  /** One token: every layer it has together with the next one. */
  method CountGroup(before: Counts, g: Group) returns (counts: Counts)
    requires NoEmptyCounts(before)
    ensures Adds(before, counts, (l, s) => Contribution(g, l, s))
  {
    hide CountOf; hide NoEmptyCounts; hide Repeat; hide Contribution; hide Partial; hide LayerTargets;
    counts := before;
    var left: set<int> := g.Keys;
    NothingDone(g);
    while left != {}
      invariant left <= g.Keys && NoEmptyCounts(counts)
      invariant forall l, s :: CountOf(counts, l, s) == CountOf(before, l, s) + Partial(g, left, l, s)
      decreases |left|
    {
      var layer := Pick(left);
      OneMoreLayer(g, left, layer);
      if layer + 1 in g {
        counts := CountLayer(counts, layer, g[layer].experts, g[layer + 1].experts);
      }
      left := left - {layer};
    }
    AllDone(g);
  }

  lemma NothingDone(g: Group)
    ensures forall l, s :: Partial(g, g.Keys, l, s) == multiset{}
  {
  }

  lemma AllDone(g: Group)
    ensures forall l, s :: Partial(g, {}, l, s) == Contribution(g, l, s)
  {
  }

  lemma OneMoreLayer(g: Group, left: set<int>, layer: int)
    requires layer in left && left <= g.Keys
    ensures forall l, s :: Partial(g, left - {layer}, l, s) ==
              Partial(g, left, l, s) +
              if layer + 1 in g then LayerTargets(layer, g[layer].experts, g[layer + 1].experts, l, s) else multiset{}
  {
  }

  method CountTransitions(groups: seq<Group>) returns (counts: Counts)
    ensures NoEmptyCounts(counts)
    ensures forall l, s :: CountOf(counts, l, s) == Targets(groups, l, s)
  {
    hide CountOf; hide NoEmptyCounts; hide Contribution;
    counts := map[];
    NoCounts();
    for i := 0 to |groups|
      invariant NoEmptyCounts(counts)
      invariant forall l, s :: CountOf(counts, l, s) == Targets(groups[..i], l, s)
    {
      counts := CountGroup(counts, groups[i]);
      assert groups[..i + 1][..i] == groups[..i];
    }
    assert groups[..|groups|] == groups;
  }

  lemma {:induction false} RepeatIs(n: nat, m: multiset<int>, t: int)
    ensures Repeat(n, m)[t] == n * m[t]
  {
    if n > 0 {
      RepeatIs(n - 1, m, t);
      assert (n - 1) * m[t] + m[t] == n * m[t];
    }
  }

  /** How often `target` was routed to right behind `source`: over all tokens that have both
      layers, the pairs of a place of the one and a place of the other. */
  ghost function Pairs(groups: seq<Group>, layer: int, source: int, target: int): nat {
    if groups == [] then 0
    else
      var g := groups[|groups| - 1];
      Pairs(groups[..|groups| - 1], layer, source, target) +
      if layer in g && layer + 1 in g
      then multiset(g[layer].experts)[source] * multiset(g[layer + 1].experts)[target] else 0
  }

  lemma {:induction false} TargetsArePairs(groups: seq<Group>, layer: int, source: int, target: int)
    ensures Targets(groups, layer, source)[target] == Pairs(groups, layer, source, target)
  {
    if groups != [] {
      var g := groups[|groups| - 1];
      TargetsArePairs(groups[..|groups| - 1], layer, source, target);
      if layer in g && layer + 1 in g {
        RepeatIs(multiset(g[layer].experts)[source], multiset(g[layer + 1].experts), target);
      }
    }
  }

  lemma NoCounts()
    ensures NoEmptyCounts(map[]) && forall l, s :: CountOf(map[], l, s) == multiset{}
  {
  }

  // ----- from counts to distributions -----

  function SumConfidence(candidates: seq<Candidate>): real {
    if candidates == [] then 0.0 else candidates[0].confidence + SumConfidence(candidates[1..])
  }

  function Weights(m: multiset<int>): map<int, real> {
    map t | t in m :: m[t] as real
  }

  /** The candidates of one source: every observed target, most frequent first, with its
      relative frequency. */
  ghost predicate IsDistribution(m: multiset<int>, candidates: seq<Candidate>) {
    && m != multiset{}
    && (forall i :: 0 <= i < |candidates| ==>
          candidates[i].expert in m && candidates[i].confidence == m[candidates[i].expert] as real / |m| as real)
    && Ranked(Weights(m), Experts(candidates))
  }

  function Experts(candidates: seq<Candidate>): (r: seq<int>)
    ensures |r| == |candidates| && forall i :: 0 <= i < |r| ==> r[i] == candidates[i].expert
  {
    if candidates == [] then [] else [candidates[0].expert] + Experts(candidates[1..])
  }

  method Normalize(m: multiset<int>) returns (candidates: seq<Candidate>)
    requires m != multiset{}
    ensures IsDistribution(m, candidates)
  {
    var order := Rank(Weights(m));
    candidates := [];
    for i := 0 to |order|
      invariant |candidates| == i && forall j :: 0 <= j < i ==>
                  candidates[j] == Candidate(order[j], m[order[j]] as real / |m| as real)
    {
      candidates := candidates + [Candidate(order[i], m[order[i]] as real / |m| as real)];
    }
    assert Experts(candidates) == order;
  }

  ghost predicate Distinct(order: seq<int>) {
    forall i, j :: 0 <= i < j < |order| ==> order[i] != order[j]
  }

  function SumCounts(m: multiset<int>, order: seq<int>): nat {
    if order == [] then 0 else m[order[0]] + SumCounts(m, order[1..])
  }

  lemma {:induction false} SameCounts(m: multiset<int>, n: multiset<int>, order: seq<int>)
    requires forall i :: 0 <= i < |order| ==> m[order[i]] == n[order[i]]
    ensures SumCounts(m, order) == SumCounts(n, order)
  {
    if order != [] { SameCounts(m, n, order[1..]); }
  }

  lemma {:induction false} CountsAddUp(m: multiset<int>, order: seq<int>)
    requires Distinct(order) && forall e :: e in m ==> e in order
    ensures SumCounts(m, order) == |m|
    decreases |order|
  {
    if order == [] {
      forall e ensures m[e] == 0 {
        assert e !in order;
      }
      assert m == multiset{};
    } else {
      var first, rest := order[0], order[1..];
      var without := m[first := 0];
      assert order == [first] + rest;
      forall e | e in without ensures e in rest {
        assert e in m && e != first;
      }
      CountsAddUp(without, rest);
      SameCounts(m, without, rest);
      assert |m| == |without| + m[first];
    }
  }

  lemma {:induction false} SumIsQuotient(m: multiset<int>, candidates: seq<Candidate>)
    requires |m| > 0
    requires forall i :: 0 <= i < |candidates| ==> candidates[i].confidence == m[candidates[i].expert] as real / |m| as real
    ensures SumConfidence(candidates) == SumCounts(m, Experts(candidates)) as real / |m| as real
  {
    if candidates != [] {
      SumIsQuotient(m, candidates[1..]);
      assert Experts(candidates)[1..] == Experts(candidates[1..]);
      AddQuotients(m[candidates[0].expert], SumCounts(m, Experts(candidates[1..])), |m|);
    }
  }

  lemma AddQuotients(a: nat, b: nat, n: nat)
    requires n > 0
    ensures a as real / n as real + b as real / n as real == (a + b) as real / n as real
  {
  }

  lemma RankedIsDistinct(weights: map<int, real>, order: seq<int>)
    requires Ranked(weights, order)
    ensures Distinct(order)
  {
    forall i, j | 0 <= i < j < |order| ensures order[i] != order[j] {
      assert Before(weights, order[i], order[j]);
    }
  }

  /** A trained source is a probability distribution: distinct targets with confidences in
      (0, 1] that sum to one, most likely first. */
  lemma DistributionSumsToOne(m: multiset<int>, candidates: seq<Candidate>)
    requires IsDistribution(m, candidates)
    ensures candidates != [] && Distinct(Experts(candidates)) && SumConfidence(candidates) == 1.0
    ensures forall i :: 0 <= i < |candidates| ==> 0.0 < candidates[i].confidence <= 1.0
    ensures forall i, j :: 0 <= i < j < |candidates| ==> candidates[i].confidence >= candidates[j].confidence
  {
    var order := Experts(candidates);
    assert |m| > 0;
    RankedIsDistinct(Weights(m), order);
    CountsAddUp(m, order) by { assert forall e :: e in m ==> e in Weights(m); }
    SumIsQuotient(m, candidates);
    hide Ranked; hide SumCounts; hide SumConfidence; hide Distinct;
    forall i | 0 <= i < |candidates| ensures 0.0 < candidates[i].confidence <= 1.0 {
      MultiplicityBound(m, candidates[i].expert);
    }
    forall i, j | 0 <= i < j < |candidates| ensures candidates[i].confidence >= candidates[j].confidence {
      RankedAt(Weights(m), order, i, j);
      DivideKeepsOrder(m[order[j]], m[order[i]], |m|);
    }
    SelfQuotient(|m|);
    if candidates == [] { NoOrder(m); }
  }

  lemma SelfQuotient(n: nat)
    requires n > 0
    ensures n as real / n as real == 1.0
  {
  }

  lemma NoOrder(m: multiset<int>)
    ensures SumCounts(m, []) == 0
  {
  }

  lemma RankedAt(weights: map<int, real>, order: seq<int>, i: nat, j: nat)
    requires Ranked(weights, order) && i < j < |order|
    ensures order[i] in weights && order[j] in weights && Before(weights, order[i], order[j])
  {
    assert order[i] in order && order[j] in order;
  }

  lemma MultiplicityBound(m: multiset<int>, e: int)
    requires e in m
    ensures 0 < m[e] <= |m| && 0.0 < m[e] as real / |m| as real <= 1.0
  {
    assert |m| == |m[e := 0]| + m[e];
  }

  lemma DivideKeepsOrder(a: nat, b: nat, n: nat)
    requires a <= b && n > 0
    ensures a as real / n as real <= b as real / n as real
  {
  }

  // ----- validation -----

  ghost predicate ValidDistribution(candidates: seq<Candidate>, numExperts: int) {
    && candidates != [] && Distinct(Experts(candidates))
    && (forall i :: 0 <= i < |candidates| ==> 0 <= candidates[i].expert < numExperts && 0.0 < candidates[i].confidence <= 1.0)
    && SumConfidence(candidates) <= 1.000001
  }

  ghost predicate ValidSources(sources: Sources, numExperts: int) {
    forall s :: s in sources ==> 0 <= s < numExperts && ValidDistribution(sources[s], numExperts)
  }

  ghost predicate ValidPredictor(p: TransitionPredictor) {
    && p.formatVersion == 1 && p.modelType != "" && p.numLayers > 1 && p.numExperts > 0
    && forall l :: l in p.transitions ==> 0 <= l < p.numLayers - 1 && ValidSources(p.transitions[l], p.numExperts)
  }

  /** The bounds on confidences, on the smallest predictor with two targets. */
  lemma TwoTargetsAreValidIff(a: real, b: real, c: int, d: int)
    ensures var two := [Candidate(c, a), Candidate(d, b)];
            ValidPredictor(TransitionPredictor(1, "m", 2, 2, map[0 := map[1 := two]])) <==>
            ((c == 0 && d == 1) || (c == 1 && d == 0)) && 0.0 < a <= 1.0 && 0.0 < b <= 1.0 && a + b <= 1.0 + 0.000001
  {
    var two := [Candidate(c, a), Candidate(d, b)];
    var last := [Candidate(d, b)];
    assert two[1..] == last && last[1..] == [];
    assert SumConfidence(last) == b + SumConfidence([]) == b;
    assert Experts(two) == [c, d] && SumConfidence(two) == a + SumConfidence(last);
    assert two[0] == Candidate(c, a) && two[1] == Candidate(d, b);
    var transitions := map[0 := map[1 := two]];
    assert 0 in transitions && 1 in transitions[0];
    assert ValidSources(transitions[0], 2) <==> ValidDistribution(two, 2);
    assert Distinct([c, d]) <==> c != d by { assert [c, d][0] == c && [c, d][1] == d; }
  }

  lemma {:induction false} SumSnoc(candidates: seq<Candidate>, c: Candidate)
    ensures SumConfidence(candidates + [c]) == SumConfidence(candidates) + c.confidence
  {
    if candidates == [] {
      assert [] + [c] == [c] && [c][1..] == [];
    } else {
      assert (candidates + [c])[1..] == candidates[1..] + [c];
      SumSnoc(candidates[1..], c);
    }
  }

  method ValidateCandidates(candidates: seq<Candidate>, numExperts: int) returns (ok: bool)
    ensures ok <==> ValidDistribution(candidates, numExperts)
  {
    if candidates == [] {
      return false;
    }
    hide SumConfidence;
    NothingToGive();
    var seen: set<int>, sum := {}, 0.0;
    for i := 0 to |candidates|
      invariant forall e :: e in seen <==> exists j :: 0 <= j < i && candidates[j].expert == e
      invariant forall j, k :: 0 <= j < k < i ==> candidates[j].expert != candidates[k].expert
      invariant forall j :: 0 <= j < i ==> 0 <= candidates[j].expert < numExperts && 0.0 < candidates[j].confidence <= 1.0
      invariant sum == SumConfidence(candidates[..i])
    {
      var c := candidates[i];
      if c.expert in seen || !(0 <= c.expert < numExperts) {
        ghost var experts := Experts(candidates);
        assert c.expert in seen ==> exists j :: 0 <= j < i && experts[j] == experts[i];
        return false;
      }
      if !(0.0 < c.confidence <= 1.0) {
        return false;
      }
      seen, sum := seen + {c.expert}, sum + c.confidence;
      SumSnoc(candidates[..i], c);
      assert candidates[..i + 1] == candidates[..i] + [c];
    }
    assert candidates[..|candidates|] == candidates;
    ok := sum <= 1.000001;
  }

  method ValidateSources(sources: Sources, numExperts: int) returns (ok: bool)
    ensures ok <==> ValidSources(sources, numExperts)
  {
    hide ValidDistribution;
    var left := sources.Keys;
    while left != {}
      invariant left <= sources.Keys
      invariant forall s :: s in sources && s !in left ==> 0 <= s < numExperts && ValidDistribution(sources[s], numExperts)
      decreases |left|
    {
      var s := Pick(left);
      var one := ValidateCandidates(sources[s], numExperts);
      if !(0 <= s < numExperts && one) {
        return false;
      }
      left := left - {s};
    }
    ok := true;
  }

  /** `TransitionPredictor.validate`. */
  method Validate(p: TransitionPredictor) returns (ok: bool)
    ensures ok <==> ValidPredictor(p)
  {
    hide ValidSources;
    if p.formatVersion != 1 || p.modelType == "" || p.numLayers <= 1 || p.numExperts <= 0 {
      return false;
    }
    var left := p.transitions.Keys;
    while left != {}
      invariant left <= p.transitions.Keys
      invariant forall l :: l in p.transitions && l !in left ==>
                  0 <= l < p.numLayers - 1 && ValidSources(p.transitions[l], p.numExperts)
      decreases |left|
    {
      var l := Pick(left);
      var one := ValidateSources(p.transitions[l], p.numExperts);
      if !(0 <= l < p.numLayers - 1 && one) {
        return false;
      }
      left := left - {l};
    }
    ok := true;
  }

  // ----- training -----

  /** `p` holds the distribution of every observed (layer, source) pair, and no others. */
  ghost predicate IsTrained(groups: seq<Group>, p: TransitionPredictor) {
    && (forall l, s :: Targets(groups, l, s) != multiset{} <==> l in p.transitions && s in p.transitions[l])
    && (forall l, s :: l in p.transitions && s in p.transitions[l] ==> IsDistribution(Targets(groups, l, s), p.transitions[l][s]))
    && (forall l :: l in p.transitions ==> p.transitions[l] != map[])
  }

  ghost predicate AreDistributions(counts: map<int, multiset<int>>, sources: Sources) {
    sources.Keys == counts.Keys && forall s :: s in sources ==> IsDistribution(counts[s], sources[s])
  }

  method NormalizeSources(counts: map<int, multiset<int>>) returns (sources: Sources)
    requires forall s :: s in counts ==> counts[s] != multiset{}
    ensures AreDistributions(counts, sources)
  {
    hide IsDistribution;
    sources := map[];
    var left := counts.Keys;
    while left != {}
      invariant left <= counts.Keys && sources.Keys == counts.Keys - left
      invariant forall s :: s in sources ==> IsDistribution(counts[s], sources[s])
      decreases |left|
    {
      var s := Pick(left);
      var candidates := Normalize(counts[s]);
      sources, left := sources[s := candidates], left - {s};
    }
  }

  method NormalizeCounts(counts: Counts) returns (transitions: map<int, Sources>)
    requires NoEmptyCounts(counts)
    ensures transitions.Keys == counts.Keys
    ensures forall l :: l in transitions ==> AreDistributions(counts[l], transitions[l])
  {
    hide IsDistribution;
    transitions := map[];
    var left := counts.Keys;
    while left != {}
      invariant left <= counts.Keys && transitions.Keys == counts.Keys - left
      invariant forall l :: l in transitions ==> AreDistributions(counts[l], transitions[l])
      decreases |left|
    {
      var l := Pick(left);
      var sources := NormalizeSources(counts[l]);
      transitions, left := transitions[l := sources], left - {l};
    }
  }

  ghost predicate GroupsOf(groups: seq<Group>, order: seq<GroupKey>, grouped: map<GroupKey, Group>) {
    |groups| == |order| && forall i :: 0 <= i < |order| ==> order[i] in grouped && groups[i] == grouped[order[i]]
  }

  /** Every layer and expert that occurs in some transition is in range. */
  ghost predicate TransitionsInRange(groups: seq<Group>, numExperts: int) {
    forall l, s, t :: t in Targets(groups, l, s) ==> l >= 0 && 0 <= s < numExperts && 0 <= t < numExperts
  }

  ghost predicate IsTopLayer(events: seq<Event>, top: int) {
    (exists e :: e in events && e.layer == top) && forall e :: e in events ==> e.layer <= top
  }

  ghost predicate DeclaresOne(events: seq<Event>, n: int) {
    (exists e :: e in events && e.numExperts == Some(n)) &&
    forall e :: e in events && e.numExperts.Some? ==> e.numExperts.value == n
  }

  lemma TrainedFromCounts(groups: seq<Group>, counts: Counts, p: TransitionPredictor)
    requires NoEmptyCounts(counts) && forall l, s :: CountOf(counts, l, s) == Targets(groups, l, s)
    requires p.transitions.Keys == counts.Keys && forall l :: l in p.transitions ==> AreDistributions(counts[l], p.transitions[l])
    ensures IsTrained(groups, p)
  {
    hide IsDistribution; hide Targets;
    forall l | l in p.transitions ensures p.transitions[l] != map[] {
      assert counts[l].Keys != {} && AreDistributions(counts[l], p.transitions[l]);
    }
    forall l, s ensures Targets(groups, l, s) != multiset{} <==> l in p.transitions && s in p.transitions[l] {
      assert CountOf(counts, l, s) == Targets(groups, l, s);
    }
    forall l, s | l in p.transitions && s in p.transitions[l]
      ensures IsDistribution(Targets(groups, l, s), p.transitions[l][s]) {
      assert CountOf(counts, l, s) == Targets(groups, l, s) == counts[l][s];
    }
  }

  lemma {:induction false} TargetsNeedNextLayer(groups: seq<Group>, layer: int, source: int) returns (i: nat)
    requires Targets(groups, layer, source) != multiset{}
    ensures i < |groups| && layer + 1 in groups[i]
  {
    var last := |groups| - 1;
    if Contribution(groups[last], layer, source) != multiset{} {
      i := last;
    } else {
      i := TargetsNeedNextLayer(groups[..last], layer, source);
    }
  }

  lemma LayerIsBelowTop(events: seq<Event>, order: seq<GroupKey>, grouped: map<GroupKey, Group>, groups: seq<Group>,
                        top: int, layer: int, source: int)
    requires Grouped(events, order, grouped) && GroupsOf(groups, order, grouped) && IsTopLayer(events, top)
    requires Targets(groups, layer, source) != multiset{}
    ensures layer < top
  {
    var i := TargetsNeedNextLayer(groups, layer, source);
    var e := grouped[order[i]][layer + 1];
    assert e in events && e.layer == layer + 1;
  }

  lemma DistributionIsValidIff(m: multiset<int>, candidates: seq<Candidate>, numExperts: int)
    requires IsDistribution(m, candidates)
    ensures ValidDistribution(candidates, numExperts) <==> forall t :: t in m ==> 0 <= t < numExperts
  {
    DistributionSumsToOne(m, candidates);
    if ValidDistribution(candidates, numExperts) {
      forall t | t in m ensures 0 <= t < numExperts {
        assert t in Weights(m) && t in Experts(candidates);
      }
    }
  }

  /** Training on a consistent trace gives a predictor that validates exactly when every layer
      and expert of an observed transition is in range. */
  lemma TrainedIsValidIff(events: seq<Event>, order: seq<GroupKey>, grouped: map<GroupKey, Group>, groups: seq<Group>,
                          p: TransitionPredictor)
    requires Grouped(events, order, grouped) && GroupsOf(groups, order, grouped) && IsTrained(groups, p)
    requires p.formatVersion == 1 && p.numLayers > 1 && IsTopLayer(events, p.numLayers - 1)
    ensures ValidPredictor(p) <==> p.modelType != "" && p.numExperts > 0 && TransitionsInRange(groups, p.numExperts)
  {
    hide Targets; hide IsDistribution; hide ValidDistribution; hide Grouped; hide GroupsOf; hide IsTopLayer;
    forall l, s | l in p.transitions && s in p.transitions[l]
      ensures l < p.numLayers - 1
      ensures ValidDistribution(p.transitions[l][s], p.numExperts) <==>
              forall t :: t in Targets(groups, l, s) ==> 0 <= t < p.numExperts {
      LayerIsBelowTop(events, order, grouped, groups, p.numLayers - 1, l, s);
      DistributionIsValidIff(Targets(groups, l, s), p.transitions[l][s], p.numExperts);
    }
    if TransitionsInRange(groups, p.numExperts) {
      forall l | l in p.transitions ensures 0 <= l < p.numLayers - 1 && ValidSources(p.transitions[l], p.numExperts) {
        SourcesInRange(groups, p, l);
        assert p.transitions[l].Keys != {};
        var s := PickKey(p.transitions[l]);
      }
    }
    if ValidPredictor(p) {
      forall l, s, t | t in Targets(groups, l, s) ensures l >= 0 && 0 <= s < p.numExperts && 0 <= t < p.numExperts {
        assert l in p.transitions && s in p.transitions[l] && ValidSources(p.transitions[l], p.numExperts);
      }
    }
  }

  lemma SourcesInRange(groups: seq<Group>, p: TransitionPredictor, l: int)
    requires IsTrained(groups, p) && TransitionsInRange(groups, p.numExperts) && l in p.transitions
    ensures 0 <= l && forall s :: s in p.transitions[l] ==> 0 <= s < p.numExperts
  {
    hide Targets; hide IsDistribution;
    forall s | s in p.transitions[l] ensures 0 <= l && 0 <= s < p.numExperts {
      assert Targets(groups, l, s) != multiset{};
      var t := PickFrom(Targets(groups, l, s));
    }
    assert p.transitions[l].Keys != {};
    var s := PickKey(p.transitions[l]);
  }

  lemma PickKey(sources: Sources) returns (s: int)
    requires sources.Keys != {}
    ensures s in sources
  {
    s := PickOne(sources.Keys);
  }

  lemma PickFrom<T>(m: multiset<T>) returns (x: T)
    requires m != multiset{}
    ensures x in m
  {
    x :| x in m;
  }

  lemma PickOne<T>(s: set<T>) returns (x: T)
    requires s != {}
    ensures x in s
  {
    x :| x in s;
  }

  /** `train_transition_predictor`. `groups` are the events of each token, by layer. */
  method Train(events: seq<Event>, modelType: string)
    returns (r: Result<TransitionPredictor>, groups: seq<Group>, order: seq<GroupKey>, grouped: map<GroupKey, Group>)
    ensures NoConflict(events) ==> Grouped(events, order, grouped) && GroupsOf(groups, order, grouped)
    ensures r.Ok? <==>
            && NoConflict(events) && modelType != ""
            && exists n, top :: DeclaresOne(events, n) && IsTopLayer(events, top) && n > 0 && top >= 1 && TransitionsInRange(groups, n)
    ensures r.Ok? ==>
            && IsTrained(groups, r.value) && r.value.modelType == modelType && r.value.formatVersion == 1
            && DeclaresOne(events, r.value.numExperts) && IsTopLayer(events, r.value.numLayers - 1)
  {
    hide Grouped; hide IsTrained; hide TransitionsInRange; hide ValidPredictor; hide NoEmptyCounts; hide CountOf;
    hide Targets;
    var ok, keys, byKey := GroupEvents(events);
    order, grouped := keys, byKey;
    var gs := ListGroups(events, keys, byKey, ok);
    groups := gs;
    var declared, top := Declarations(events);
    DeclaredIs(events, declared);
    if events == [] || |declared| != 1 {
      return ValueError, groups, order, grouped;
    }
    var n := Pick(declared);
    OnlyOne(declared, n);
    if !ok || top + 1 <= 1 {
      return ValueError, groups, order, grouped;
    }
    var counts := CountTransitions(gs);
    var transitions := NormalizeCounts(counts);
    var p := TransitionPredictor(1, modelType, top + 1, n, transitions);
    TrainedFromCounts(gs, counts, p);
    TrainedIsValidIff(events, order, grouped, gs, p);
    var valid := Validate(p);
    r := if valid then Ok(p) else ValueError;
  }

  lemma DeclaredIs(events: seq<Event>, declared: set<int>)
    requires forall d :: d in declared <==> exists e :: e in events && e.numExperts == Some(d)
    ensures forall n :: DeclaresOne(events, n) <==> declared == {n}
  {
    forall n ensures DeclaresOne(events, n) <==> declared == {n} {
      if declared == {n} {
        assert n in declared;
        forall e | e in events && e.numExperts.Some? ensures e.numExperts.value == n {
          var d := e.numExperts.value;
          assert e in events && e.numExperts == Some(d);
          assert d in declared;
        }
      }
      if DeclaresOne(events, n) {
        assert n in declared;
        forall d | d in declared ensures d == n {
          var e :| e in events && e.numExperts == Some(d);
        }
      }
    }
  }

  lemma OnlyOne(declared: set<int>, n: int)
    requires |declared| == 1 && n in declared
    ensures declared == {n}
  {
    assert |declared - {n}| == 0;
    assert declared == {n} + (declared - {n});
  }

  method ListGroups(events: seq<Event>, order: seq<GroupKey>, grouped: map<GroupKey, Group>,
                    ok: bool) returns (groups: seq<Group>)
    requires ok ==> Grouped(events, order, grouped)
    ensures ok ==> GroupsOf(groups, order, grouped)
  {
    groups := [];
    if ok {
      for i := 0 to |order|
        invariant |groups| == i && forall j :: 0 <= j < i ==> order[j] in grouped && groups[j] == grouped[order[j]]
      {
        assert order[i] in order;
        groups := groups + [grouped[order[i]]];
      }
    }
  }

  /** The declared expert counts and the highest layer. */
  method Declarations(events: seq<Event>) returns (declared: set<int>, top: int)
    ensures forall d :: d in declared <==> exists e :: e in events && e.numExperts == Some(d)
    ensures events != [] ==> IsTopLayer(events, top)
  {
    declared, top := {}, if events == [] then 0 else events[0].layer;
    for i := 0 to |events|
      invariant forall d :: d in declared <==> exists j :: 0 <= j < i && events[j].numExperts == Some(d)
      invariant forall j :: 0 <= j < i ==> events[j].layer <= top
      invariant events != [] ==> exists j :: 0 <= j < |events| && events[j].layer == top
    {
      if events[i].numExperts.Some? {
        declared := declared + {events[i].numExperts.value};
      }
      if events[i].layer > top {
        top := events[i].layer;
      }
    }
  }

  // ----- prediction -----

  function CandidatesOf(sources: Sources, source: int): seq<Candidate> {
    if source in sources then sources[source] else []
  }

  function SourcesOf(p: TransitionPredictor, layer: int): Sources {
    if layer in p.transitions then p.transitions[layer] else map[]
  }

  /** The confidence a list of candidates gives to one expert. */
  function ConfidenceIn(candidates: seq<Candidate>, expert: int): real {
    if candidates == [] then 0.0
    else ConfidenceIn(candidates[..|candidates| - 1], expert) +
         if candidates[|candidates| - 1].expert == expert then candidates[|candidates| - 1].confidence else 0.0
  }

  /** What all observed sources together give to one expert. */
  function Score(sources: Sources, observed: seq<int>, expert: int): real {
    if observed == [] then 0.0
    else Score(sources, observed[..|observed| - 1], expert) +
         ConfidenceIn(CandidatesOf(sources, observed[|observed| - 1]), expert)
  }

  predicate Proposes(candidates: seq<Candidate>, expert: int) {
    exists i :: 0 <= i < |candidates| && candidates[i].expert == expert
  }

  ghost predicate Proposed(sources: Sources, observed: seq<int>, expert: int) {
    exists i :: 0 <= i < |observed| && Proposes(CandidatesOf(sources, observed[i]), expert)
  }

  /** The proposed experts, each once, with their average confidence, the most confident first
      and ties by id. */
  ghost predicate IsPrediction(sources: Sources, observed: seq<int>, result: seq<Candidate>)
    requires observed != []
  {
    && (forall i :: 0 <= i < |result| ==> result[i].confidence == Score(sources, observed, result[i].expert) / |observed| as real)
    && (forall e :: e in Experts(result) <==> Proposed(sources, observed, e))
    && (forall i, j :: 0 <= i < j < |result| ==>
          result[i].confidence > result[j].confidence ||
          (result[i].confidence == result[j].confidence && result[i].expert < result[j].expert))
  }

  function Flatten(rows: seq<seq<int>>): seq<int> {
    if rows == [] then [] else rows[0] + Flatten(rows[1..])
  }

  /** `scores` holds exactly the proposed experts with their scores. */
  ghost predicate IsScores(sources: Sources, observed: seq<int>, scores: map<int, real>) {
    forall e :: (e in scores <==> Proposed(sources, observed, e)) &&
                (if e in scores then scores[e] else 0.0) == Score(sources, observed, e)
  }

  method AddCandidates(scores: map<int, real>, candidates: seq<Candidate>) returns (after: map<int, real>)
    ensures forall e :: (e in after <==> e in scores || Proposes(candidates, e)) &&
              (if e in after then after[e] else 0.0) == (if e in scores then scores[e] else 0.0) + ConfidenceIn(candidates, e)
  {
    after := scores;
    for i := 0 to |candidates|
      invariant forall e :: (e in after <==> e in scores || Proposes(candidates[..i], e)) &&
                  (if e in after then after[e] else 0.0) ==
                  (if e in scores then scores[e] else 0.0) + ConfidenceIn(candidates[..i], e)
    {
      var c := candidates[i];
      OneMoreCandidate(candidates, i);
      after := after[c.expert := (if c.expert in after then after[c.expert] else 0.0) + c.confidence];
    }
    assert candidates[..|candidates|] == candidates;
  }

  lemma OneMoreCandidate(candidates: seq<Candidate>, i: nat)
    requires i < |candidates|
    ensures forall e :: Proposes(candidates[..i + 1], e) <==> Proposes(candidates[..i], e) || candidates[i].expert == e
    ensures forall e :: ConfidenceIn(candidates[..i + 1], e) ==
              ConfidenceIn(candidates[..i], e) + if candidates[i].expert == e then candidates[i].confidence else 0.0
  {
    assert candidates[..i + 1][..i] == candidates[..i];
    forall e ensures Proposes(candidates[..i + 1], e) <==> Proposes(candidates[..i], e) || candidates[i].expert == e {
      if candidates[i].expert == e { assert candidates[..i + 1][i].expert == e; }
      if Proposes(candidates[..i], e) {
        var j :| 0 <= j < i && candidates[..i][j].expert == e;
        assert candidates[..i + 1][j].expert == e;
      }
    }
  }

  lemma OneMoreObserved(sources: Sources, observed: seq<int>, i: nat)
    requires i < |observed|
    ensures forall e :: Proposed(sources, observed[..i + 1], e) <==>
              Proposed(sources, observed[..i], e) || Proposes(CandidatesOf(sources, observed[i]), e)
    ensures forall e :: Score(sources, observed[..i + 1], e) ==
              Score(sources, observed[..i], e) + ConfidenceIn(CandidatesOf(sources, observed[i]), e)
  {
    hide Proposes;
    assert observed[..i + 1][..i] == observed[..i];
    forall e ensures Proposed(sources, observed[..i + 1], e) <==>
                     Proposed(sources, observed[..i], e) || Proposes(CandidatesOf(sources, observed[i]), e) {
      if Proposes(CandidatesOf(sources, observed[i]), e) { assert observed[..i + 1][i] == observed[i]; }
      if Proposed(sources, observed[..i], e) {
        var j :| 0 <= j < i && Proposes(CandidatesOf(sources, observed[..i][j]), e);
        assert observed[..i + 1][j] == observed[..i][j];
      }
    }
  }

  method ScoreAll(sources: Sources, observed: seq<int>) returns (scores: map<int, real>)
    ensures IsScores(sources, observed, scores)
  {
    hide Proposes; hide Proposed; hide Score; hide ConfidenceIn;
    scores := map[];
    NothingObserved(sources);
    for i := 0 to |observed|
      invariant IsScores(sources, observed[..i], scores)
    {
      OneMoreObserved(sources, observed, i);
      scores := AddCandidates(scores, CandidatesOf(sources, observed[i]));
    }
    assert observed[..|observed|] == observed;
  }

  lemma NothingObserved(sources: Sources)
    ensures forall e :: !Proposed(sources, [], e) && Score(sources, [], e) == 0.0
  {
  }

  method FlattenRows(rows: seq<seq<int>>) returns (observed: seq<int>)
    ensures observed == Flatten(rows)
  {
    observed := [];
    assert rows[0..] == rows;
    for i := 0 to |rows|
      invariant observed + Flatten(rows[i..]) == Flatten(rows)
    {
      assert rows[i..][0] == rows[i] && rows[i..][1..] == rows[i + 1..];
      observed := observed + rows[i];
    }
    assert rows[|rows|..] == [];
  }

  /** An expert that is not in the list has no confidence there. */
  lemma {:induction false} ConfidenceIsNone(candidates: seq<Candidate>, expert: int)
    requires forall i :: 0 <= i < |candidates| ==> candidates[i].expert != expert
    ensures ConfidenceIn(candidates, expert) == 0.0
  {
    if candidates != [] { ConfidenceIsNone(candidates[..|candidates| - 1], expert); }
  }

  /** In a list of distinct experts each has its own confidence. */
  lemma {:induction false} ConfidenceIs(candidates: seq<Candidate>, i: nat)
    requires i < |candidates|
    requires forall j, k :: 0 <= j < k < |candidates| ==> candidates[j].expert != candidates[k].expert
    ensures ConfidenceIn(candidates, candidates[i].expert) == candidates[i].confidence
  {
    var n := |candidates| - 1;
    if i == n {
      ConfidenceIsNone(candidates[..n], candidates[i].expert);
    } else {
      ConfidenceIs(candidates[..n], i);
    }
  }

  /** `TransitionPredictor.predict`. */
  method Predict(p: TransitionPredictor, layer: int, rows: seq<seq<int>>) returns (result: seq<Candidate>)
    ensures layer < 0 || layer >= p.numLayers - 1 || Flatten(rows) == [] ==> result == []
    ensures 0 <= layer < p.numLayers - 1 && Flatten(rows) != [] ==> IsPrediction(SourcesOf(p, layer), Flatten(rows), result)
  {
    if layer < 0 || layer >= p.numLayers - 1 {
      return [];
    }
    var observed := FlattenRows(rows);
    if observed == [] {
      return [];
    }
    hide IsScores; hide IsPrediction; hide Flatten;
    var scores := ScoreAll(SourcesOf(p, layer), observed);
    var order := Rank(scores);
    result := [];
    assert forall i :: 0 <= i < |order| ==> order[i] in scores;
    hide Ranked;
    for i := 0 to |order|
      invariant |result| == i && forall j :: 0 <= j < i ==> result[j] == Candidate(order[j], scores[order[j]] / |observed| as real)
    {
      result := result + [Candidate(order[i], scores[order[i]] / |observed| as real)];
    }
    RankedScoresPredict(SourcesOf(p, layer), observed, scores, order, result);
  }

  lemma RankedScoresPredict(sources: Sources, observed: seq<int>, scores: map<int, real>, order: seq<int>,
                            result: seq<Candidate>)
    requires observed != [] && IsScores(sources, observed, scores) && Ranked(scores, order) && |result| == |order|
    requires forall j :: 0 <= j < |order| ==> result[j] == Candidate(order[j], scores[order[j]] / |observed| as real)
    ensures IsPrediction(sources, observed, result)
  {
    hide Proposed; hide Score;
    assert Experts(result) == order;
    forall i, j | 0 <= i < j < |result|
      ensures result[i].confidence > result[j].confidence ||
              (result[i].confidence == result[j].confidence && result[i].expert < result[j].expert) {
      RankedAt(scores, order, i, j);
      DivideReals(scores[order[j]], scores[order[i]], |observed|);
    }
    forall e ensures e in order <==> Proposed(sources, observed, e) {
      if e in order {
        var i :| 0 <= i < |order| && order[i] == e;
      }
    }
  }

  lemma DivideReals(a: real, b: real, n: nat)
    requires n > 0
    ensures a < b ==> a / n as real < b / n as real
    ensures a == b ==> a / n as real == b / n as real
  {
  }

  // ----- the mass of a prediction -----

  function SumScores(sources: Sources, observed: seq<int>, experts: seq<int>): real {
    if experts == [] then 0.0 else Score(sources, observed, experts[0]) + SumScores(sources, observed, experts[1..])
  }

  function SumIn(candidates: seq<Candidate>, experts: seq<int>): real {
    if experts == [] then 0.0 else ConfidenceIn(candidates, experts[0]) + SumIn(candidates, experts[1..])
  }

  /** The confidence the observed sources have to give. */
  function Supply(sources: Sources, observed: seq<int>): real {
    if observed == [] then 0.0
    else Supply(sources, observed[..|observed| - 1]) + SumConfidence(CandidatesOf(sources, observed[|observed| - 1]))
  }

  lemma {:induction false} SplitScores(sources: Sources, observed: seq<int>, experts: seq<int>)
    requires observed != []
    ensures SumScores(sources, observed, experts) ==
            SumScores(sources, observed[..|observed| - 1], experts) +
            SumIn(CandidatesOf(sources, observed[|observed| - 1]), experts)
  {
    if experts != [] { SplitScores(sources, observed, experts[1..]); }
  }

  lemma {:induction false} NoScores(sources: Sources, experts: seq<int>)
    ensures SumScores(sources, [], experts) == 0.0 && SumIn([], experts) == 0.0
  {
    if experts != [] { NoScores(sources, experts[1..]); }
  }

  lemma {:induction false} OneCandidate(candidates: seq<Candidate>, c: Candidate, experts: seq<int>)
    requires Distinct(experts)
    ensures SumIn(candidates + [c], experts) == SumIn(candidates, experts) + if c.expert in experts then c.confidence else 0.0
  {
    if experts != [] {
      assert (candidates + [c])[..|candidates|] == candidates;
      assert experts == [experts[0]] + experts[1..];
      OneCandidate(candidates, c, experts[1..]);
    }
  }

  /** Distinct experts that include every candidate receive everything the candidates give. */
  lemma {:induction false} AllIsReceived(candidates: seq<Candidate>, experts: seq<int>)
    requires Distinct(experts) && forall i :: 0 <= i < |candidates| ==> candidates[i].expert in experts
    ensures SumIn(candidates, experts) == SumConfidence(candidates)
    decreases |candidates|
  {
    if candidates == [] {
      NoScores(map[], experts);
    } else {
      var before, last := candidates[..|candidates| - 1], candidates[|candidates| - 1];
      assert candidates == before + [last];
      AllIsReceived(before, experts);
      OneCandidate(before, last, experts);
      SumSnoc(before, last);
    }
  }

  lemma {:induction false} ScoresAreSupply(sources: Sources, observed: seq<int>, experts: seq<int>)
    requires Distinct(experts)
    requires forall i :: 0 <= i < |observed| ==>
               forall j :: 0 <= j < |CandidatesOf(sources, observed[i])| ==> CandidatesOf(sources, observed[i])[j].expert in experts
    ensures SumScores(sources, observed, experts) == Supply(sources, observed)
    decreases |observed|
  {
    if observed == [] {
      NoScores(sources, experts);
    } else {
      ScoresAreSupply(sources, observed[..|observed| - 1], experts);
      SplitScores(sources, observed, experts);
      AllIsReceived(CandidatesOf(sources, observed[|observed| - 1]), experts);
    }
  }

  lemma {:induction false} SumIsScores(sources: Sources, observed: seq<int>, result: seq<Candidate>)
    requires observed != []
    requires forall i :: 0 <= i < |result| ==> result[i].confidence == Score(sources, observed, result[i].expert) / |observed| as real
    ensures SumConfidence(result) == SumScores(sources, observed, Experts(result)) / |observed| as real
  {
    if result != [] {
      SumIsScores(sources, observed, result[1..]);
      assert Experts(result)[1..] == Experts(result[1..]);
      AddRealQuotients(Score(sources, observed, result[0].expert), SumScores(sources, observed, Experts(result[1..])), |observed|);
    }
  }

  lemma AddRealQuotients(a: real, b: real, n: nat)
    requires n > 0
    ensures a / n as real + b / n as real == (a + b) / n as real
  {
  }

  /** `bound` times `n`, added up. */
  function Scaled(bound: real, n: nat): real {
    if n == 0 then 0.0 else Scaled(bound, n - 1) + bound
  }

  lemma {:induction false} ScaledIs(bound: real, n: nat)
    ensures Scaled(bound, n) == bound * n as real
  {
    if n > 0 {
      ScaledIs(bound, n - 1);
      TimesNext(bound, n - 1);
    }
  }

  lemma TimesNext(bound: real, n: nat)
    ensures bound * (n + 1) as real == bound * n as real + bound
  {
  }

  lemma {:induction false} SupplyIsBounded(sources: Sources, observed: seq<int>, bound: real)
    requires bound >= 0.0 && forall s :: s in sources ==> SumConfidence(sources[s]) <= bound
    ensures Supply(sources, observed) <= Scaled(bound, |observed|)
    decreases |observed|
  {
    if observed != [] {
      hide SumConfidence;
      SupplyIsBounded(sources, observed[..|observed| - 1], bound);
      NothingToGive();
    }
  }

  lemma NothingToGive()
    ensures SumConfidence([]) == 0.0
  {
  }

  /** A prediction names distinct experts, and hands out exactly the average of what the
      observed sources give: no more than any bound on the single sources. */
  lemma PredictionMass(sources: Sources, observed: seq<int>, result: seq<Candidate>, bound: real)
    requires observed != [] && IsPrediction(sources, observed, result) && bound >= 0.0
    requires forall s :: s in sources ==> SumConfidence(sources[s]) <= bound
    ensures Distinct(Experts(result))
    ensures SumConfidence(result) == Supply(sources, observed) / |observed| as real <= bound
  {
    hide Proposes; hide Score; hide SumConfidence; hide Supply; hide SumScores;
    var experts := Experts(result);
    forall i | 0 <= i < |observed|
      ensures forall j :: 0 <= j < |CandidatesOf(sources, observed[i])| ==> CandidatesOf(sources, observed[i])[j].expert in experts {
      forall j | 0 <= j < |CandidatesOf(sources, observed[i])| ensures CandidatesOf(sources, observed[i])[j].expert in experts {
        ProposesAt(CandidatesOf(sources, observed[i]), j);
        assert Proposed(sources, observed, CandidatesOf(sources, observed[i])[j].expert);
      }
    }
    ScoresAreSupply(sources, observed, experts);
    SumIsScores(sources, observed, result);
    SupplyIsBounded(sources, observed, bound);
    ScaledIs(bound, |observed|);
    QuotientBound(Supply(sources, observed), bound, |observed|);
  }

  lemma ProposesAt(candidates: seq<Candidate>, j: nat)
    requires j < |candidates|
    ensures Proposes(candidates, candidates[j].expert)
  {
  }

  lemma QuotientBound(a: real, bound: real, n: nat)
    requires n > 0 && a <= bound * n as real
    ensures a / n as real <= bound
  {
  }

  /** With a trained predictor the mass of a prediction is at most one. */
  lemma TrainedPredictionMass(groups: seq<Group>, p: TransitionPredictor, layer: int, observed: seq<int>,
                              result: seq<Candidate>)
    requires IsTrained(groups, p) && observed != [] && IsPrediction(SourcesOf(p, layer), observed, result)
    ensures SumConfidence(result) <= 1.0
  {
    hide IsPrediction; hide SumConfidence; hide Targets; hide IsDistribution;
    var sources := SourcesOf(p, layer);
    forall s | s in sources ensures SumConfidence(sources[s]) <= 1.0 {
      DistributionSumsToOne(Targets(groups, layer, s), sources[s]);
    }
    PredictionMass(sources, observed, result, 1.0);
  }

  // ----- scheduling -----

  datatype Limits = Limits(maxCandidates: int, minConfidence: real, maxBytes: int)
  datatype Stats = Stats(predictionCalls: nat, considered: nat, submitted: nat, skippedConfidence: nat,
                         skippedLimit: nat, skippedBytes: nat, skippedRuntime: nat)

  datatype Verdict = TooUnlikely | OverLimit | OverBytes | Offered(accepted: bool)

  /** What becomes of each candidate, given what has been selected before it and the runtime's
      answers. */
  function Sift(limits: Limits, bytesOf: int -> nat, answer: int -> bool, candidates: seq<Candidate>, selected: nat,
                bytes: nat)
    : (r: seq<Verdict>)
    ensures |r| == |candidates|
    decreases |candidates|
  {
    if candidates == [] then []
    else
      var c := candidates[0];
      if c.confidence < limits.minConfidence then
        [TooUnlikely] + Sift(limits, bytesOf, answer, candidates[1..], selected, bytes)
      else if selected >= limits.maxCandidates then
        [OverLimit] + Sift(limits, bytesOf, answer, candidates[1..], selected, bytes)
      else if bytes + bytesOf(c.expert) > limits.maxBytes then
        [OverBytes] + Sift(limits, bytesOf, answer, candidates[1..], selected, bytes)
      else
        [Offered(answer(c.expert))] +
        Sift(limits, bytesOf, answer, candidates[1..], selected + 1, bytes + bytesOf(c.expert))
  }

  function CountOffered(verdicts: seq<Verdict>): nat {
    if verdicts == [] then 0 else (if verdicts[0].Offered? then 1 else 0) + CountOffered(verdicts[1..])
  }

  function OfferedBytes(bytesOf: int -> nat, candidates: seq<Candidate>, verdicts: seq<Verdict>): nat
    requires |candidates| == |verdicts|
  {
    if verdicts == [] then 0
    else (if verdicts[0].Offered? then bytesOf(candidates[0].expert) else 0) + OfferedBytes(bytesOf, candidates[1..], verdicts[1..])
  }

  /** A call offers at most the allowed number of candidates and bytes, and only confident
      ones; it refuses a confident one only when one of the limits is exhausted. */
  lemma {:induction false} LimitsHold(limits: Limits, bytesOf: int -> nat, answer: int -> bool,
                                      candidates: seq<Candidate>,
                                      selected: nat, bytes: nat)
    requires selected <= limits.maxCandidates && bytes <= limits.maxBytes
    ensures var v := Sift(limits, bytesOf, answer, candidates, selected, bytes);
            && selected + CountOffered(v) <= limits.maxCandidates
            && bytes + OfferedBytes(bytesOf, candidates, v) <= limits.maxBytes
            && (forall i :: 0 <= i < |v| ==> (v[i].TooUnlikely? <==> candidates[i].confidence < limits.minConfidence))
            && ((exists i :: 0 <= i < |v| && v[i].OverLimit?) ==> selected + CountOffered(v) == limits.maxCandidates)
            && (forall i :: 0 <= i < |v| && v[i].OverBytes? ==>
                  bytes + OfferedBytes(bytesOf, candidates, v) + bytesOf(candidates[i].expert) > limits.maxBytes)
    decreases |candidates|
  {
    if candidates != [] {
      var c, v := candidates[0], Sift(limits, bytesOf, answer, candidates, selected, bytes);
      if v[0].Offered? {
        LimitsHold(limits, bytesOf, answer, candidates[1..], selected + 1, bytes + bytesOf(c.expert));
      } else {
        LimitsHold(limits, bytesOf, answer, candidates[1..], selected, bytes);
      }
      var rest := v[1..];
      assert forall i :: 0 < i < |v| ==> v[i] == rest[i - 1] && candidates[i] == candidates[1..][i - 1];
    }
  }

  /** Each candidate in its turn, by what was offered before it: a confident one is offered
      exactly when a place is left and its bytes fit, and the runtime's answer is kept. */
  lemma {:induction false} SiftIsGreedy(limits: Limits, bytesOf: int -> nat, answer: int -> bool,
                                        candidates: seq<Candidate>, selected: nat, bytes: nat, i: nat)
    requires i < |candidates|
    ensures var v, c := Sift(limits, bytesOf, answer, candidates, selected, bytes), candidates[i];
            var places := limits.maxCandidates - selected - CountOffered(v[..i]);
            var room := limits.maxBytes - bytes - OfferedBytes(bytesOf, candidates[..i], v[..i]);
            && (v[i].TooUnlikely? <==> c.confidence < limits.minConfidence)
            && (v[i].OverLimit? <==> c.confidence >= limits.minConfidence && places <= 0)
            && (v[i].OverBytes? <==> c.confidence >= limits.minConfidence && places > 0 && bytesOf(c.expert) > room)
            && (v[i].Offered? <==> c.confidence >= limits.minConfidence && places > 0 && bytesOf(c.expert) <= room)
            && (v[i].Offered? ==> v[i].accepted == answer(c.expert))
    decreases |candidates|
  {
    hide Sift;
    var v, c := Sift(limits, bytesOf, answer, candidates, selected, bytes), candidates[0];
    SiftStep(limits, bytesOf, answer, candidates, selected, bytes);
    if i == 0 {
      assert v[..0] == [] && candidates[..0] == [];
    } else {
      var chosen := v[0].Offered?;
      SiftIsGreedy(limits, bytesOf, answer, candidates[1..], selected + (if chosen then 1 else 0),
                   bytes + (if chosen then bytesOf(c.expert) else 0), i - 1);
      assert v[..i][0] == v[0] && v[..i][1..] == v[1..][..i - 1];
      assert candidates[..i][0] == c && candidates[..i][1..] == candidates[1..][..i - 1];
    }
  }

  function Tally(stats: Stats, verdicts: seq<Verdict>): Stats {
    if verdicts == [] then stats
    else
      var s := Tally(stats, verdicts[..|verdicts| - 1]);
      match verdicts[|verdicts| - 1]
      case TooUnlikely => s.(skippedConfidence := s.skippedConfidence + 1)
      case OverLimit => s.(skippedLimit := s.skippedLimit + 1)
      case OverBytes => s.(skippedBytes := s.skippedBytes + 1)
      case Offered(accepted) =>
        if accepted then s.(submitted := s.submitted + 1) else s.(skippedRuntime := s.skippedRuntime + 1)
  }

  ghost predicate Conserved(s: Stats) {
    s.considered == s.submitted + s.skippedConfidence + s.skippedLimit + s.skippedBytes + s.skippedRuntime
  }

  lemma {:induction false} TallyCounts(stats: Stats, verdicts: seq<Verdict>)
    ensures var s := Tally(stats, verdicts);
            && s.predictionCalls == stats.predictionCalls && s.considered == stats.considered
            && s.submitted + s.skippedConfidence + s.skippedLimit + s.skippedBytes + s.skippedRuntime ==
               stats.submitted + stats.skippedConfidence + stats.skippedLimit + stats.skippedBytes + stats.skippedRuntime + |verdicts|
  {
    if verdicts != [] { TallyCounts(stats, verdicts[..|verdicts| - 1]); }
  }

  /** The counters after one call. */
  function AfterCall(stats: Stats, candidates: seq<Candidate>, verdicts: seq<Verdict>): Stats {
    if candidates == [] then stats
    else Tally(stats.(predictionCalls := stats.predictionCalls + 1, considered := stats.considered + |candidates|), verdicts)
  }

  datatype Call = Call(candidates: seq<Candidate>, bytesOf: int -> nat, answer: int -> bool)

  ghost function RunCalls(limits: Limits, stats: Stats, calls: seq<Call>): Stats {
    if calls == [] then stats
    else
      var c := calls[|calls| - 1];
      AfterCall(RunCalls(limits, stats, calls[..|calls| - 1]), c.candidates, Sift(limits, c.bytesOf, c.answer, c.candidates, 0, 0))
  }

  /** Over any run, every candidate considered was submitted or counted under exactly one
      reason for skipping it. */
  lemma {:induction false} EveryCandidateIsCounted(limits: Limits, calls: seq<Call>)
    ensures Conserved(RunCalls(limits, Stats(0, 0, 0, 0, 0, 0, 0), calls))
  {
    if calls != [] {
      hide AfterCall; hide Sift; hide Conserved;
      var c := calls[|calls| - 1];
      EveryCandidateIsCounted(limits, calls[..|calls| - 1]);
      CallConserves(RunCalls(limits, Stats(0, 0, 0, 0, 0, 0, 0), calls[..|calls| - 1]), c.candidates,
                    Sift(limits, c.bytesOf, c.answer, c.candidates, 0, 0));
    } else {
      assert Conserved(Stats(0, 0, 0, 0, 0, 0, 0));
    }
  }

  ghost function AllVerdicts(limits: Limits, calls: seq<Call>): seq<Verdict> {
    if calls == [] then []
    else
      var c := calls[|calls| - 1];
      AllVerdicts(limits, calls[..|calls| - 1]) + Sift(limits, c.bytesOf, c.answer, c.candidates, 0, 0)
  }

  /** The calls for which something was predicted. */
  ghost function Predictions(calls: seq<Call>): nat {
    if calls == [] then 0
    else Predictions(calls[..|calls| - 1]) + if calls[|calls| - 1].candidates == [] then 0 else 1
  }

  lemma {:induction false} TallyIs(stats: Stats, verdicts: seq<Verdict>)
    ensures var (s, m) := (Tally(stats, verdicts), multiset(verdicts));
            && s.skippedConfidence == stats.skippedConfidence + m[TooUnlikely]
            && s.skippedLimit == stats.skippedLimit + m[OverLimit]
            && s.skippedBytes == stats.skippedBytes + m[OverBytes]
            && s.submitted == stats.submitted + m[Offered(true)]
            && s.skippedRuntime == stats.skippedRuntime + m[Offered(false)]
            && s.predictionCalls == stats.predictionCalls && s.considered == stats.considered
  {
    if verdicts != [] {
      var n := |verdicts| - 1;
      TallyIs(stats, verdicts[..n]);
      assert verdicts == verdicts[..n] + [verdicts[n]];
      assert verdicts[n] == TooUnlikely || verdicts[n] == OverLimit || verdicts[n] == OverBytes ||
             verdicts[n] == Offered(true) || verdicts[n] == Offered(false);
    }
  }

  /** Over any run each counter is the number of its verdicts, and the predictions are the
      calls that had a candidate. */
  lemma {:induction false} CountersAreVerdicts(limits: Limits, calls: seq<Call>)
    ensures var s, all := RunCalls(limits, Stats(0, 0, 0, 0, 0, 0, 0), calls), AllVerdicts(limits, calls);
            var m := multiset(all);
            && s.predictionCalls == Predictions(calls) && s.considered == |all|
            && s.skippedConfidence == m[TooUnlikely] && s.skippedLimit == m[OverLimit]
            && s.skippedBytes == m[OverBytes] && s.submitted == m[Offered(true)]
            && s.skippedRuntime == m[Offered(false)]
  {
    hide Sift; hide Tally;
    if calls != [] {
      var c := calls[|calls| - 1];
      var before, verdicts := RunCalls(limits, Stats(0, 0, 0, 0, 0, 0, 0), calls[..|calls| - 1]),
                              Sift(limits, c.bytesOf, c.answer, c.candidates, 0, 0);
      CountersAreVerdicts(limits, calls[..|calls| - 1]);
      TallyIs(before.(predictionCalls := before.predictionCalls + 1, considered := before.considered + |c.candidates|),
              verdicts);
      assert c.candidates == [] ==> verdicts == [];
    }
  }

  lemma CallConserves(stats: Stats, candidates: seq<Candidate>, verdicts: seq<Verdict>)
    requires Conserved(stats) && |candidates| == |verdicts|
    ensures Conserved(AfterCall(stats, candidates, verdicts))
  {
    hide Tally;
    TallyCounts(stats.(predictionCalls := stats.predictionCalls + 1, considered := stats.considered + |candidates|), verdicts);
  }

  class PredictivePrefetchScheduler {
    const limits: Limits
    const predictor: TransitionPredictor
    var stats: Stats
    var offered: seq<int>   // the experts handed to the runtime, over all calls

    constructor (limits: Limits, predictor: TransitionPredictor)
      ensures this.limits == limits && this.predictor == predictor
      ensures stats == Stats(0, 0, 0, 0, 0, 0, 0) && offered == []
    {
      this.limits, this.predictor, stats, offered := limits, predictor, Stats(0, 0, 0, 0, 0, 0, 0), [];
    }

    /** `schedule`: `bytesOf` gives the bundle sizes of the next layer, `answer` whether the
        runtime takes an offer. */
    method Schedule(layer: int, rows: seq<seq<int>>, bytesOf: int -> nat, answer: int -> bool)
      returns (ghost candidates: seq<Candidate>, ghost verdicts: seq<Verdict>)
      modifies this
      ensures layer < 0 || layer >= predictor.numLayers - 1 || Flatten(rows) == [] ==> candidates == []
      ensures 0 <= layer < predictor.numLayers - 1 && Flatten(rows) != [] ==>
                IsPrediction(SourcesOf(predictor, layer), Flatten(rows), candidates)
      ensures verdicts == Sift(limits, bytesOf, answer, candidates, 0, 0)
      ensures stats == AfterCall(old(stats), candidates, verdicts)
      ensures offered == old(offered) + OfferedExperts(candidates, verdicts)
    {
      hide IsPrediction; hide Flatten; hide Tally; hide Sift; hide OfferedExperts;
      var cs := Predict(predictor, layer, rows);
      candidates, verdicts := cs, Sift(limits, bytesOf, answer, cs, 0, 0);
      if cs == [] {
        NothingToSift(limits, bytesOf, answer);
        return;
      }
      ghost var before := stats.(predictionCalls := stats.predictionCalls + 1, considered := stats.considered + |cs|);
      stats := stats.(predictionCalls := stats.predictionCalls + 1);
      stats := stats.(considered := stats.considered + |cs|);
      var selected: nat, bytes: nat := 0, 0;
      NothingTallied(before);
      assert cs[0..] == cs && verdicts[0..] == verdicts;
      for i := 0 to |cs|
        invariant stats == Tally(before, verdicts[..i])
        invariant offered == old(offered) + OfferedExperts(cs[..i], verdicts[..i])
        invariant verdicts[i..] == Sift(limits, bytesOf, answer, cs[i..], selected, bytes)
      {
        var c := cs[i];
        assert cs[i..][0] == c && cs[i..][1..] == cs[i + 1..] && verdicts[i..][1..] == verdicts[i + 1..];
        assert verdicts[i..][0] == verdicts[i];
        SiftStep(limits, bytesOf, answer, cs[i..], selected, bytes);
        TallyStep(before, verdicts, i);
        OfferedStep(cs, verdicts, i);
        if c.confidence < limits.minConfidence {
          stats := stats.(skippedConfidence := stats.skippedConfidence + 1);
        } else if selected >= limits.maxCandidates {
          stats := stats.(skippedLimit := stats.skippedLimit + 1);
        } else if bytes + bytesOf(c.expert) > limits.maxBytes {
          stats := stats.(skippedBytes := stats.skippedBytes + 1);
        } else {
          selected, bytes := selected + 1, bytes + bytesOf(c.expert);
          offered := offered + [c.expert];
          if answer(c.expert) {
            stats := stats.(submitted := stats.submitted + 1);
          } else {
            stats := stats.(skippedRuntime := stats.skippedRuntime + 1);
          }
        }
      }
      assert cs[..|cs|] == cs && verdicts[..|cs|] == verdicts;
    }
  }

  function OfferedExperts(candidates: seq<Candidate>, verdicts: seq<Verdict>): seq<int>
    requires |candidates| == |verdicts|
  {
    if verdicts == [] then []
    else
      var n := |verdicts| - 1;
      OfferedExperts(candidates[..n], verdicts[..n]) + if verdicts[n].Offered? then [candidates[n].expert] else []
  }

  lemma NothingToSift(limits: Limits, bytesOf: int -> nat, answer: int -> bool)
    ensures Sift(limits, bytesOf, answer, [], 0, 0) == [] && OfferedExperts([], []) == []
  {
  }

  lemma NothingTallied(stats: Stats)
    ensures Tally(stats, []) == stats && OfferedExperts([], []) == []
  {
  }

  lemma OfferedStep(candidates: seq<Candidate>, verdicts: seq<Verdict>, i: nat)
    requires i < |candidates| == |verdicts|
    ensures OfferedExperts(candidates[..i + 1], verdicts[..i + 1]) ==
            OfferedExperts(candidates[..i], verdicts[..i]) + if verdicts[i].Offered? then [candidates[i].expert] else []
  {
    assert candidates[..i + 1][..i] == candidates[..i] && verdicts[..i + 1][..i] == verdicts[..i];
  }

  lemma TallyStep(stats: Stats, verdicts: seq<Verdict>, i: nat)
    requires i < |verdicts|
    ensures Tally(stats, verdicts[..i + 1]) ==
            var s := Tally(stats, verdicts[..i]);
            if verdicts[i].TooUnlikely? then s.(skippedConfidence := s.skippedConfidence + 1)
            else if verdicts[i].OverLimit? then s.(skippedLimit := s.skippedLimit + 1)
            else if verdicts[i].OverBytes? then s.(skippedBytes := s.skippedBytes + 1)
            else if verdicts[i].accepted then s.(submitted := s.submitted + 1)
            else s.(skippedRuntime := s.skippedRuntime + 1)
  {
    assert verdicts[..i + 1][..i] == verdicts[..i];
  }

  lemma SiftStep(limits: Limits, bytesOf: int -> nat, answer: int -> bool, candidates: seq<Candidate>, selected: nat,
                 bytes: nat)
    requires candidates != []
    ensures var v, c := Sift(limits, bytesOf, answer, candidates, selected, bytes), candidates[0];
            && v[0] == (if c.confidence < limits.minConfidence then TooUnlikely
                        else if selected >= limits.maxCandidates then OverLimit
                        else if bytes + bytesOf(c.expert) > limits.maxBytes then OverBytes
                        else Offered(answer(c.expert)))
            && v[1..] == Sift(limits, bytesOf, answer, candidates[1..],
                              selected + (if v[0].Offered? then 1 else 0),
                              bytes + (if v[0].Offered? then bytesOf(c.expert) else 0))
  {
  }
}
