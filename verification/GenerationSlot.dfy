/** The one generation slot of the server: who holds it, who releases it, and the request
    counters, over every life of a generation. Events are the calls of request threads; what
    the engine does inside a call is the event's outcome. */
module GenerationSlot {

  /** How a generator body came to an end. */
  datatype Ended = Finished | RaisedInside | Interrupted

  /** The generator behind a stream: not yet run, suspended at a `yield` inside its `try`,
      suspended after completion with so many chunks still to come, or over. The body of a
      non-streaming request is inside its `try` from the start. */
  datatype Body = NotRun | Running | Completed(left: nat) | Over(how: Ended)

  /** The flags of `_GenerationStream`. */
  datatype Stream = NoStream | Stream(started: bool, abandon: bool)

  /** `settled` is the flag of `_ActiveGeneration`; `releases` counts its releases of the slot. */
  datatype Generation = Generation(chat: bool, usage: bool, settled: bool, releases: nat, stream: Stream, body: Body)

  datatype State = State(permits: int, requests: nat, completed: nat, failed: nat, busy: nat, active: int,
                         generations: seq<Generation>)

  /** Collecting the final metrics: done, failed with an ordinary exception (the fallback is
      used), or interrupted by an exception outside `Exception`. */
  datatype Collection = Collected | CollectionFailed | CollectionInterrupted

  /** What happens until the body yields or ends. */
  datatype Outcome = Yields | Raises | Completes(collection: Collection)

  datatype Event =
    | Begin(chat: bool, usage: bool, streaming: bool, setupFails: bool)
    | Collect(id: nat, outcome: Outcome)
    | Next(id: nat, outcome: Outcome)
    | Close(id: nat)

  const INITIAL := State(1, 0, 0, 0, 0, 0, [])

  // ----- settling a generation -----

  /** `_fail_generation`. */
  function Fail(s: State, id: nat): State
    requires id < |s.generations|
  {
    var g := s.generations[id];
    if g.settled then s
    else s.(failed := s.failed + 1, active := s.active - 1, permits := s.permits + 1,
            generations := s.generations[id := g.(settled := true, releases := g.releases + 1)])
  }

  /** `_complete_generation`; the second result says whether it raises. */
  function Complete(s: State, id: nat, collection: Collection): (State, bool)
    requires id < |s.generations|
  {
    var g := s.generations[id];
    if g.settled then (s, true)
    else if collection.CollectionInterrupted? then (s.(generations := s.generations[id := g.(settled := true)]), true)
    else (s.(completed := s.completed + 1, active := s.active - 1, permits := s.permits + 1,
             generations := s.generations[id := g.(settled := true, releases := g.releases + 1)]), false)
  }

  function WithBody(s: State, id: nat, body: Body): State
    requires id < |s.generations|
  {
    s.(generations := s.generations[id := s.generations[id].(body := body)])
  }

  function WithStream(s: State, id: nat, stream: Stream): State
    requires id < |s.generations|
  {
    s.(generations := s.generations[id := s.generations[id].(stream := stream)])
  }

  // ----- the calls -----

  /** `_begin_generation`. */
  function AfterBegin(s: State, chat: bool, usage: bool, streaming: bool, setupFails: bool): State {
    if s.permits <= 0 then s.(busy := s.busy + 1)
    else if setupFails then s.(requests := s.requests + 1, failed := s.failed + 1)
    else s.(permits := s.permits - 1, requests := s.requests + 1, active := s.active + 1,
            generations := s.generations +
              [Generation(chat, usage, false, 0, if streaming then Stream(false, true) else NoStream,
                          if streaming then NotRun else Running)])
  }

  /** The body after it is resumed, from `NotRun` or `Running`. */
  function Resume(s: State, id: nat, outcome: Outcome): State
    requires id < |s.generations|
  {
    var g := s.generations[id];
    match outcome
    case Yields => WithBody(s, id, Running)
    case Raises => WithBody(Fail(s, id), id, Over(RaisedInside))
    case Completes(collection) =>
      var (done, raises) := Complete(s, id, collection);
      if raises then WithBody(done, id, Over(if g.settled then RaisedInside else Interrupted))
      else if g.stream.NoStream? then WithBody(done, id, Over(Finished))
      else WithBody(done, id, Completed(if g.usage then 1 else 0))
  }

  /** `_GenerationStream.__next__`. */
  function AfterNext(s: State, id: nat, outcome: Outcome): State
    requires id < |s.generations|
  {
    var started, body := WithStream(s, id, Stream(true, false)), s.generations[id].body;
    match body
    case Over(_) => started
    case Completed(left) => WithBody(started, id, if left > 0 then Completed(left - 1) else Over(Finished))
    case NotRun => Resume(started, id, outcome)
    case Running => Resume(started, id, outcome)
  }

  /** `_GenerationStream.close`: a started body gets a `GeneratorExit` at its `yield`. */
  function AfterStreamClose(s: State, id: nat): State
    requires id < |s.generations| && s.generations[id].stream.Stream?
  {
    var g := s.generations[id];
    if !g.stream.started then
      var closed := WithStream(s, id, Stream(false, false));
      if g.stream.abandon then Fail(closed, id) else closed
    else if g.body.Running? then WithBody(Fail(s, id), id, Over(RaisedInside))
    else if g.body.Completed? then WithBody(s, id, Over(Finished))
    else s
  }

  predicate Enabled(s: State, e: Event) {
    match e
    case Begin(_, _, _, _) => true
    case Collect(id, outcome) =>
      id < |s.generations| && s.generations[id].stream.NoStream? && s.generations[id].body.Running? &&
      (outcome.Raises? || outcome.Completes?)
    case Next(id, outcome) =>
      id < |s.generations| && s.generations[id].stream.Stream? &&
      (s.generations[id].chat && s.generations[id].body.NotRun? ==> outcome.Yields?)   // the role chunk
    case Close(id) => id < |s.generations| && s.generations[id].stream.Stream?
  }

  function Apply(s: State, e: Event): State
    requires Enabled(s, e)
  {
    match e
    case Begin(chat, usage, streaming, setupFails) => AfterBegin(s, chat, usage, streaming, setupFails)
    case Collect(id, outcome) => Resume(s, id, outcome)
    case Next(id, outcome) => AfterNext(s, id, outcome)
    case Close(id) => AfterStreamClose(s, id)
  }

  // ----- the invariant -----

  /** The generation still holds the slot. */
  predicate Holds(g: Generation) {
    g.releases == 0
  }

  function Holders(generations: seq<Generation>): nat {
    if generations == [] then 0
    else Holders(generations[..|generations| - 1]) + if Holds(generations[|generations| - 1]) then 1 else 0
  }

  /** The flags fit together: a generation is settled once, with one release, unless the
      completion was interrupted. */
  predicate GenerationOk(g: Generation) {
    && g.releases == (if g.settled && g.body != Over(Interrupted) then 1 else 0)
    && (g.stream.NoStream? ==> g.body.Running? || g.body.Over?)
    && (g.stream.Stream? && !g.stream.started ==> g.body.NotRun? && g.stream.abandon == !g.settled)
    && (g.stream.Stream? && g.stream.started ==> !g.stream.abandon && !g.body.NotRun?)
    && (g.stream.NoStream? && g.body.Running? ==> !g.settled)
    && (g.body.Completed? || g.body == Over(Finished) || g.body == Over(RaisedInside) ==> g.settled && g.releases == 1)
    && (g.body == Over(Interrupted) ==> g.settled)
  }

  ghost predicate Inv(s: State) {
    && (forall i :: 0 <= i < |s.generations| ==> GenerationOk(s.generations[i]))
    && s.permits == 1 - Holders(s.generations) && s.permits >= 0
    && s.active == Holders(s.generations)
    && s.requests == s.completed + s.failed + s.active
  }

  lemma {:induction false} HoldersUpdate(generations: seq<Generation>, id: nat, g: Generation)
    requires id < |generations|
    ensures Holders(generations[id := g]) ==
            Holders(generations) - (if Holds(generations[id]) then 1 else 0) + (if Holds(g) then 1 else 0)
  {
    var last := |generations| - 1;
    if id == last {
      assert generations[id := g][..last] == generations[..last];
    } else {
      HoldersUpdate(generations[..last], id, g);
      assert generations[id := g][..last] == generations[..last][id := g];
    }
  }

  lemma HoldersSnoc(generations: seq<Generation>, g: Generation)
    ensures Holders(generations + [g]) == Holders(generations) + if Holds(g) then 1 else 0
  {
    assert (generations + [g])[..|generations|] == generations;
  }

  /** Changing one generation, with the counters moved by the same amount, keeps the
      invariant. */
  lemma UpdateKeepsInv(s: State, t: State, id: nat)
    requires Inv(s) && Moves(s, t, id)
    ensures Inv(t)
  {
    HoldersUpdate(s.generations, id, t.generations[id]);
    assert forall i :: 0 <= i < |t.generations| && i != id ==> t.generations[i] == s.generations[i];
  }

  lemma BeginKeepsInv(s: State, chat: bool, usage: bool, streaming: bool, setupFails: bool)
    requires Inv(s)
    ensures Inv(AfterBegin(s, chat, usage, streaming, setupFails))
  {
    if s.permits > 0 && !setupFails {
      var t := AfterBegin(s, chat, usage, streaming, setupFails);
      HoldersSnoc(s.generations, t.generations[|s.generations|]);
    }
  }

  /** Every call of a request thread keeps the invariant. */
  lemma StepKeepsInv(s: State, e: Event)
    requires Inv(s) && Enabled(s, e)
    ensures Inv(Apply(s, e))
  {
    match e
    case Begin(chat, usage, streaming, setupFails) => BeginKeepsInv(s, chat, usage, streaming, setupFails);
    case Collect(id, outcome) => CallKeepsInv(s, e, id);
    case Next(id, outcome) => CallKeepsInv(s, e, id);
    case Close(id) => CallKeepsInv(s, e, id);
  }

  /** What one call does to its own generation and to the counters. */
  ghost predicate Moves(s: State, t: State, id: nat) {
    && id < |s.generations| == |t.generations| && t.generations == s.generations[id := t.generations[id]]
    && GenerationOk(t.generations[id])
    && (var change := (if Holds(t.generations[id]) then 1 else 0) - (if Holds(s.generations[id]) then 1 else 0);
        change <= 0 && t.permits == s.permits - change && t.active == s.active + change)
    && t.requests == s.requests && t.completed + t.failed + t.active == s.completed + s.failed + s.active
  }

  lemma CollectMoves(s: State, id: nat, outcome: Outcome)
    requires Enabled(s, Collect(id, outcome)) && GenerationOk(s.generations[id])
    ensures Moves(s, Resume(s, id, outcome), id)
  {
  }

  lemma NextMoves(s: State, id: nat, outcome: Outcome)
    requires Enabled(s, Next(id, outcome)) && GenerationOk(s.generations[id])
    ensures Moves(s, AfterNext(s, id, outcome), id)
  {
  }

  lemma CloseMoves(s: State, id: nat)
    requires Enabled(s, Close(id)) && GenerationOk(s.generations[id])
    ensures Moves(s, AfterStreamClose(s, id), id)
  {
  }

  lemma CallKeepsInv(s: State, e: Event, id: nat)
    requires Inv(s) && Enabled(s, e) && !e.Begin? && e.id == id
    ensures Inv(Apply(s, e))
  {
    assert GenerationOk(s.generations[id]);
    hide Inv; hide GenerationOk; hide Resume; hide AfterNext; hide AfterStreamClose;
    match e
    case Collect(_, outcome) => CollectMoves(s, id, outcome); UpdateKeepsInv(s, Apply(s, e), id);
    case Next(_, outcome) => NextMoves(s, id, outcome); UpdateKeepsInv(s, Apply(s, e), id);
    case Close(_) => CloseMoves(s, id); UpdateKeepsInv(s, Apply(s, e), id);
  }

  ghost predicate Runs(s: State, events: seq<Event>)
    decreases |events|
  {
    events == [] || (Enabled(s, events[0]) && Runs(Apply(s, events[0]), events[1..]))
  }

  ghost function Final(s: State, events: seq<Event>): State
    requires Runs(s, events)
    decreases |events|
  {
    if events == [] then s else Final(Apply(s, events[0]), events[1..])
  }

  lemma {:induction false} RunKeepsInv(s: State, events: seq<Event>)
    requires Inv(s) && Runs(s, events)
    ensures Inv(Final(s, events))
    decreases |events|
  {
    hide Inv; hide Apply; hide Enabled;
    if events != [] {
      StepKeepsInv(s, events[0]);
      RunKeepsInv(Apply(s, events[0]), events[1..]);
    }
  }

  // ----- what the invariant promises -----

  lemma {:induction false} NoHolders(generations: seq<Generation>)
    ensures Holders(generations) == 0 <==> forall i :: 0 <= i < |generations| ==> !Holds(generations[i])
  {
    if generations != [] {
      var last := |generations| - 1;
      NoHolders(generations[..last]);
      assert generations == generations[..last] + [generations[last]];
    }
  }

  /** In every run from the start: no generation releases the slot twice, the slot is free or
      held by one generation, it is held exactly when one generation is active, and every
      request is completed, failed or active. */
  lemma SlotIsReleasedAtMostOnce(events: seq<Event>)
    requires Runs(INITIAL, events)
    ensures var s := Final(INITIAL, events);
            && 0 <= s.permits <= 1 && (s.permits == 0 <==> s.active == 1) && (s.permits == 1 <==> s.active == 0)
            && s.requests == s.completed + s.failed + s.active
            && (forall i :: 0 <= i < |s.generations| ==> s.generations[i].releases <= 1)
            && (s.permits == 1 <==> forall i :: 0 <= i < |s.generations| ==> s.generations[i].releases == 1)
  {
    hide *;
    InitialInv();
    RunKeepsInv(INITIAL, events);
    var s := Final(INITIAL, events);
    InvMeans(s);
  }

  lemma InitialInv()
    ensures Inv(INITIAL) && NoneStranded(INITIAL)
  {
  }

  lemma InvMeans(s: State)
    requires Inv(s)
    ensures 0 <= s.permits <= 1 && (s.permits == 0 <==> s.active == 1) && (s.permits == 1 <==> s.active == 0)
    ensures s.requests == s.completed + s.failed + s.active
    ensures forall i :: 0 <= i < |s.generations| ==> s.generations[i].releases <= 1
    ensures s.permits == 1 <==> forall i :: 0 <= i < |s.generations| ==> s.generations[i].releases == 1
  {
    NoHolders(s.generations);
    forall i | 0 <= i < |s.generations| ensures s.generations[i].releases <= 1 {
      assert GenerationOk(s.generations[i]);
    }
  }

  /** The generation can never release the slot any more: its body is over and it still
      holds it. */
  predicate Stranded(g: Generation) {
    g.body.Over? && Holds(g)
  }

  /** The collection of the final metrics raises something outside `Exception`. */
  predicate IsInterruption(e: Event) {
    (e.Collect? || e.Next?) && e.outcome == Completes(CollectionInterrupted)
  }

  /** The interruption meets a generation that is not settled yet and runs to its end. */
  predicate Interrupts(s: State, e: Event)
    requires Enabled(s, e)
  {
    IsInterruption(e) && !s.generations[e.id].settled &&
    (s.generations[e.id].body.NotRun? || s.generations[e.id].body.Running?)
  }

  /** A call strands its generation exactly when it interrupts its completion, and no call
      strands or frees another generation. */
  lemma StrandedExactlyByInterruption(s: State, e: Event, i: nat)
    requires Inv(s) && Enabled(s, e) && i < |s.generations|
    ensures i < |Apply(s, e).generations|
    ensures !Stranded(s.generations[i]) ==>
              (Stranded(Apply(s, e).generations[i]) <==> !e.Begin? && e.id == i && Interrupts(s, e))
    ensures Stranded(s.generations[i]) ==> Stranded(Apply(s, e).generations[i])
  {
    hide Holders;
    assert GenerationOk(s.generations[i]);
    hide Inv;
    if e.Begin? || e.id != i {
      OthersStay(s, e, i);
    } else {
      match e
      case Collect(_, _) =>
      case Next(_, _) =>
      case Close(_) =>
    }
  }

  lemma OthersStay(s: State, e: Event, i: nat)
    requires Enabled(s, e) && i < |s.generations| && (e.Begin? || e.id != i)
    ensures i < |Apply(s, e).generations| && Apply(s, e).generations[i] == s.generations[i]
  {
  }

  /** Closing a stream, however far it got and however often it was closed before, leaves its
      slot released, unless the generation was stranded. */
  lemma CloseReleases(s: State, id: nat)
    requires Inv(s) && Enabled(s, Close(id))
    ensures Apply(s, Close(id)).generations[id].releases == (if Stranded(s.generations[id]) then 0 else 1)
    ensures Apply(Apply(s, Close(id)), Close(id)) == Apply(s, Close(id))
  {
    hide Holders;
    assert GenerationOk(s.generations[id]);
  }

  /** A non-streaming request releases the slot in the call that ends it, unless its
      completion is interrupted. */
  lemma CollectReleases(s: State, id: nat, outcome: Outcome)
    requires Inv(s) && Enabled(s, Collect(id, outcome))
    ensures Apply(s, Collect(id, outcome)).generations[id].releases ==
            (if outcome == Completes(CollectionInterrupted) then 0 else 1)
  {
    hide Holders;
    assert GenerationOk(s.generations[id]);
  }

  ghost predicate NoneStranded(s: State) {
    forall i :: 0 <= i < |s.generations| ==> !Stranded(s.generations[i])
  }

  lemma GenerationsOnlyGrow(s: State, e: Event)
    requires Enabled(s, e)
    ensures |s.generations| <= |Apply(s, e).generations|
    ensures !e.Begin? ==> |Apply(s, e).generations| == |s.generations|
  {
  }

  lemma NewIsNotStranded(s: State, e: Event, i: nat)
    requires Inv(s) && Enabled(s, e) && |s.generations| <= i < |Apply(s, e).generations|
    ensures !Stranded(Apply(s, e).generations[i])
  {
  }

  lemma StepStrandsNone(s: State, e: Event)
    requires Inv(s) && Enabled(s, e) && NoneStranded(s) && !IsInterruption(e)
    ensures NoneStranded(Apply(s, e))
  {
    hide Apply; hide Stranded; hide Inv;
    GenerationsOnlyGrow(s, e);
    forall i | 0 <= i < |Apply(s, e).generations| ensures !Stranded(Apply(s, e).generations[i]) {
      if i < |s.generations| { StrandedExactlyByInterruption(s, e, i); } else { NewIsNotStranded(s, e, i); }
    }
  }

  lemma ReleasedStays(s: State, e: Event, i: nat)
    requires Inv(s) && Enabled(s, e) && i < |s.generations| && s.generations[i].releases == 1
    ensures i < |Apply(s, e).generations| && Apply(s, e).generations[i].releases == 1
  {
    hide Holders;
    assert GenerationOk(s.generations[i]);
    hide Inv;
    if e.Begin? || e.id != i { OthersStay(s, e, i); }
  }

  /** Collecting the final metrics raises nothing outside `Exception`. */
  ghost predicate MetricsNeverInterrupt(events: seq<Event>) {
    forall e :: e in events ==> !IsInterruption(e)
  }

  lemma {:induction false} EndedStaysReleased(s: State, events: seq<Event>, id: nat)
    requires Inv(s) && NoneStranded(s) && Runs(s, events) && MetricsNeverInterrupt(events)
    ensures NoneStranded(Final(s, events))
    ensures (id < |s.generations| && s.generations[id].releases == 1) || Close(id) in events ==>
              id < |Final(s, events).generations| && Final(s, events).generations[id].releases == 1
    decreases |events|
  {
    hide Inv; hide Apply; hide Enabled; hide NoneStranded; hide IsInterruption;
    if events != [] {
      var e, t := events[0], Apply(s, events[0]);
      assert e in events;
      StepKeepsInv(s, e);
      StepStrandsNone(s, e);
      if id < |s.generations| && s.generations[id].releases == 1 {
        ReleasedStays(s, e, id);
      } else if e == Close(id) {
        ClosedIsReleased(s, id);
      }
      EndedStaysReleased(t, events[1..], id);
      assert Close(id) in events ==> e == Close(id) || Close(id) in events[1..];
    }
  }

  lemma ClosedIsReleased(s: State, id: nat)
    requires Inv(s) && NoneStranded(s) && Enabled(s, Close(id))
    ensures id < |Apply(s, Close(id)).generations| && Apply(s, Close(id)).generations[id].releases == 1
  {
    hide Inv;
    CloseReleases(s, id);
  }

  /** In every run from the start in which collecting metrics is never interrupted, every
      generation whose body is over and every stream that was closed at some point, pulled
      before or not, has released the slot exactly once. */
  lemma EveryEndedGenerationReleasedOnce(events: seq<Event>, id: nat)
    requires Runs(INITIAL, events) && MetricsNeverInterrupt(events)
    requires id < |Final(INITIAL, events).generations|
    ensures Final(INITIAL, events).generations[id].body.Over? ==> Final(INITIAL, events).generations[id].releases == 1
    ensures Close(id) in events ==> Final(INITIAL, events).generations[id].releases == 1
  {
    hide *;
    InitialInv();
    RunKeepsInv(INITIAL, events);
    EndedStaysReleased(INITIAL, events, id);
    OverIsReleased(Final(INITIAL, events), id);
  }

  lemma OverIsReleased(s: State, id: nat)
    requires Inv(s) && NoneStranded(s) && id < |s.generations|
    ensures s.generations[id].body.Over? ==> s.generations[id].releases == 1
  {
    hide Holders;
    assert GenerationOk(s.generations[id]) && !Stranded(s.generations[id]);
  }

  /** The assumption is needed: a request whose metrics collection is interrupted ends
      without releasing the slot. */
  lemma InterruptedMetricsKeepTheSlot() returns (events: seq<Event>)
    ensures |events| == 2 && events[0].Begin? && IsInterruption(events[1])
    ensures Runs(INITIAL, events)
    ensures var s := Final(INITIAL, events); |s.generations| == 1 && Stranded(s.generations[0]) && s.permits == 0
  {
    var begin, collect := Begin(false, false, false, false), Collect(0, Completes(CollectionInterrupted));
    events := [begin, collect];
    var s := Apply(INITIAL, begin);
    assert events[1..] == [collect] && [collect][1..] == [];
    assert Enabled(s, collect) && Runs(Apply(s, collect), []) && Runs(s, [collect]);
    assert Final(s, [collect]) == Apply(s, collect);
  }

  /** Once a generation is stranded every later request is refused as busy, for ever. */
  lemma {:induction false} StrandedRefusesAll(s: State, events: seq<Event>, i: nat)
    requires Inv(s) && Runs(s, events) && i < |s.generations| && Stranded(s.generations[i])
    ensures Final(s, events).requests == s.requests && Final(s, events).permits == 0
    decreases |events|
  {
    NoHolders(s.generations);
    if events != [] {
      var e := events[0];
      StepKeepsInv(s, e);
      StrandedExactlyByInterruption(s, e, i);
      StrandedRefusesAll(Apply(s, e), events[1..], i);
    }
  }

  // ----- the counters, counted over the calls of the run -----

  /** The call ends its generation: it closes it, or its body raises or reaches completion. */
  predicate IsEnd(e: Event) {
    e.Close? || ((e.Collect? || e.Next?) && !e.outcome.Yields?)
  }

  ghost function EndedIds(events: seq<Event>): set<nat> {
    set e | e in events && IsEnd(e) :: e.id
  }

  /** The first call of the run that ends its generation. */
  ghost predicate EndsFirst(before: seq<Event>, e: Event) {
    IsEnd(e) && e.id !in EndedIds(before)
  }

  /** Generations ended by an error of the engine or by being closed. */
  ghost function Errors(events: seq<Event>): nat {
    if events == [] then 0
    else
      var before, e := events[..|events| - 1], events[|events| - 1];
      Errors(before) + if EndsFirst(before, e) && (e.Close? || e.outcome.Raises?) then 1 else 0
  }

  /** Generations whose body reached its completion and was not interrupted there. */
  ghost function Completions(events: seq<Event>): nat {
    if events == [] then 0
    else
      var before, e := events[..|events| - 1], events[|events| - 1];
      Completions(before) +
      if EndsFirst(before, e) && !e.Close? && e.outcome.Completes? && !e.outcome.collection.CollectionInterrupted?
      then 1 else 0
  }

  /** Nobody holds the slot: every generation begun has ended by an error or a completion. */
  ghost predicate SlotFree(events: seq<Event>)
    decreases |events|, 1
  {
    Begun(events) == Errors(events) + Completions(events)
  }

  /** Generations that got the slot and whose setup succeeded. */
  ghost function Begun(events: seq<Event>): nat
    decreases |events|, 0
  {
    if events == [] then 0
    else
      var before, e := events[..|events| - 1], events[|events| - 1];
      Begun(before) + if e.Begin? && SlotFree(before) && !e.setupFails then 1 else 0
  }

  ghost function SetupFailures(events: seq<Event>): nat {
    if events == [] then 0
    else
      var before, e := events[..|events| - 1], events[|events| - 1];
      SetupFailures(before) + if e.Begin? && SlotFree(before) && e.setupFails then 1 else 0
  }

  /** Requests that met a held slot. */
  ghost function Refusals(events: seq<Event>): nat {
    if events == [] then 0
    else
      var before, e := events[..|events| - 1], events[|events| - 1];
      Refusals(before) + if e.Begin? && !SlotFree(before) then 1 else 0
  }

  lemma {:induction false} RunsSnoc(s: State, events: seq<Event>)
    requires Runs(s, events) && events != []
    ensures var before, e := events[..|events| - 1], events[|events| - 1];
            Runs(s, before) && Enabled(Final(s, before), e) && Final(s, events) == Apply(Final(s, before), e)
    decreases |events|
  {
    hide Apply; hide Enabled;
    var before, e := events[..|events| - 1], events[|events| - 1];
    if |events| == 1 {
      assert events[1..] == [] && before == [];
    } else {
      RunsSnoc(Apply(s, events[0]), events[1..]);
      assert events[1..][..|events| - 2] == before[1..];
    }
  }

  /** What one call on a generation moves. */
  ghost predicate CallMoves(s: State, t: State, e: Event)
    requires !e.Begin? && e.id < |s.generations|
  {
    var g := s.generations[e.id];
    && |t.generations| == |s.generations| && t.requests == s.requests && t.busy == s.busy
    && t.generations[e.id].settled == (g.settled || IsEnd(e))
    && t.failed == s.failed + (if !g.settled && (e.Close? || e.outcome.Raises?) then 1 else 0)
    && t.completed == s.completed + (if !g.settled && !e.Close? && e.outcome.Completes? &&
                                        !e.outcome.collection.CollectionInterrupted? then 1 else 0)
    && t.generations == s.generations[e.id := t.generations[e.id]]
  }

  lemma ResumeCounts(s: State, e: Event)
    requires !e.Begin? && !e.Close? && e.id < |s.generations|
    ensures CallMoves(s, Resume(s, e.id, e.outcome), e)
  {
    match e.outcome
    case Yields =>
    case Raises =>
    case Completes(_) =>
  }

  lemma OverIsSettled(g: Generation)
    requires GenerationOk(g)
    ensures g.body.Over? || g.body.Completed? ==> g.settled
  {
    if g.body.Over? {
      match g.body.how
      case Finished =>
      case RaisedInside =>
      case Interrupted =>
    }
  }

  lemma CallCounts(s: State, e: Event)
    requires Inv(s) && Enabled(s, e) && !e.Begin?
    ensures CallMoves(s, Apply(s, e), e)
  {
    hide Holders;
    OverIsSettled(s.generations[e.id]);
    hide Inv;
    match e
    case Collect(id, _) => ResumeCounts(s, e);
    case Next(id, _) =>
      var started := WithStream(s, id, Stream(true, false));
      ResumeCounts(started, e);
      assert started.generations[id := Apply(s, e).generations[id]] == s.generations[id := Apply(s, e).generations[id]];
    case Close(_) =>
  }

  /** The generations are settled that ended in the run, and the counters are its counts. */
  ghost predicate Counted(s: State, events: seq<Event>) {
    && |s.generations| == Begun(events)
    && (forall i :: i in EndedIds(events) ==> i < |s.generations|)
    && (forall i: nat :: i < |s.generations| ==> (s.generations[i].settled <==> i in EndedIds(events)))
    && s.requests == Begun(events) + SetupFailures(events) && s.busy == Refusals(events)
    && s.failed == SetupFailures(events) + Errors(events) && s.completed == Completions(events)
  }

  lemma EndedSnoc(before: seq<Event>, e: Event, events: seq<Event>)
    requires events == before + [e]
    ensures EndedIds(events) == EndedIds(before) + if IsEnd(e) then {e.id} else {}
  {
    var more := if IsEnd(e) then {e.id} else {};
    forall i ensures i in EndedIds(events) <==> i in EndedIds(before) + more {
      if i in EndedIds(before) {
        var f :| f in before && IsEnd(f) && f.id == i;
        assert f in events;
      }
      if i in more { assert e in events; }
    }
  }

  lemma CountedStep(s: State, before: seq<Event>, e: Event, events: seq<Event>)
    requires Inv(s) && Enabled(s, e) && events == before + [e] && Counted(s, before)
    ensures Counted(Apply(s, e), events)
  {
    EndedSnoc(before, e, events);
    assert events[..|events| - 1] == before && events[|events| - 1] == e;
    assert s.permits > 0 <==> SlotFree(before) by { InvMeans(s); }
    if !e.Begin? {
      CallCounts(s, e);
      hide EndedIds; hide Apply; hide Inv;
    } else {
      hide Inv; hide EndedIds;
    }
  }

  lemma {:induction false} RunCounted(events: seq<Event>)
    requires Runs(INITIAL, events)
    ensures Inv(Final(INITIAL, events)) && Counted(Final(INITIAL, events), events)
  {
    InitialInv();
    hide Inv; hide Apply; hide Enabled;
    if events != [] {
      var before, e := events[..|events| - 1], events[|events| - 1];
      RunsSnoc(INITIAL, events);
      RunCounted(before);
      CountedStep(Final(INITIAL, before), before, e, events);
      RunKeepsInv(INITIAL, events);
    }
  }

  /** In every run from the start the metrics are the counts of its calls: failed are the
      requests whose setup fails and the generations an error or a close ends first,
      completed are those whose body reaches its completion first and is not interrupted,
      rejected are the requests that meet a held slot, and the slot is held by the
      generations begun and not yet ended so. */
  lemma MetricsCountTheCalls(events: seq<Event>)
    requires Runs(INITIAL, events)
    ensures var s := Final(INITIAL, events);
            && s.failed == SetupFailures(events) + Errors(events)
            && s.completed == Completions(events)
            && s.busy == Refusals(events)
            && s.requests == Begun(events) + SetupFailures(events)
            && s.active == Begun(events) - Errors(events) - Completions(events)
            && (s.permits > 0 <==> SlotFree(events))
  {
    RunCounted(events);
    hide Apply; hide Enabled;
    InvMeans(Final(INITIAL, events));
  }

  /** After the pull that completes a stream its last chunk is still to come, or two with
      usage: the stream ends in the second pull behind it, or the third, and no pull after the
      completion moves a counter. */
  lemma CompletedStreamEnds(s: State, id: nat, collection: Collection, a: Outcome, b: Outcome)
    requires Inv(s) && Enabled(s, Next(id, Completes(collection))) && !collection.CollectionInterrupted?
    requires !s.generations[id].settled && (s.generations[id].body.NotRun? || s.generations[id].body.Running?)
    ensures var t := Apply(s, Next(id, Completes(collection)));
            && Enabled(t, Next(id, a)) && t.completed == s.completed + 1 && t.generations[id].body.Completed?
            && var u := Apply(t, Next(id, a));
               && Enabled(u, Next(id, b)) && u == t.(generations := u.generations)
               && (u.generations[id].body == Over(Finished) <==> !s.generations[id].usage)
               && var v := Apply(u, Next(id, b));
                  v == t.(generations := v.generations) && v.generations[id].body == Over(Finished)
  {
    hide Holders;
    OverIsSettled(s.generations[id]);
    hide Inv;
    var g := s.generations[id];
    var t := Apply(s, Next(id, Completes(collection)));
    assert t.generations[id] == g.(stream := Stream(true, false), body := Completed(if g.usage then 1 else 0),
                                   settled := true, releases := g.releases + 1);
  }

  // ----- the service -----

  class LocalGenerationService {
    var permits: int
    var requestsTotal: nat
    var completedTotal: nat
    var failedTotal: nat
    var busyRejectionsTotal: nat
    var activeGenerations: int
    var generations: seq<Generation>

    constructor ()
      ensures Now() == INITIAL
    {
      permits, requestsTotal, completedTotal, failedTotal, busyRejectionsTotal, activeGenerations := 1, 0, 0, 0, 0, 0;
      generations := [];
    }

    ghost function Now(): State
      reads this
    {
      State(permits, requestsTotal, completedTotal, failedTotal, busyRejectionsTotal, activeGenerations, generations)
    }

    /** `_begin_generation`; false is the busy rejection or the error of the setup. */
    method BeginGeneration(chat: bool, usage: bool, streaming: bool, setupFails: bool) returns (ok: bool)
      modifies this
      ensures Now() == AfterBegin(old(Now()), chat, usage, streaming, setupFails)
      ensures ok <==> old(permits) > 0 && !setupFails
    {
      if permits <= 0 {
        busyRejectionsTotal := busyRejectionsTotal + 1;
        return false;
      }
      permits := permits - 1;
      requestsTotal := requestsTotal + 1;
      activeGenerations := activeGenerations + 1;
      if setupFails {
        activeGenerations := activeGenerations - 1;
        failedTotal := failedTotal + 1;
        permits := permits + 1;
        return false;
      }
      generations := generations +
        [Generation(chat, usage, false, 0, if streaming then Stream(false, true) else NoStream,
                    if streaming then NotRun else Running)];
      ok := true;
    }

    method FailGeneration(id: nat)
      requires id < |generations|
      modifies this
      ensures Now() == Fail(old(Now()), id)
      ensures failedTotal == old(failedTotal) + (if old(generations[id].settled) then 0 else 1)
      ensures completedTotal == old(completedTotal)
    {
      if generations[id].settled {
        return;
      }
      generations := generations[id := generations[id].(settled := true)];
      activeGenerations := activeGenerations - 1;
      failedTotal := failedTotal + 1;
      ReleaseSlot(id);
    }

    method ReleaseSlot(id: nat)
      requires id < |generations|
      modifies this
      ensures Now() == old(Now()).(permits := old(permits) + 1,
                generations := old(generations)[id := old(generations[id]).(releases := old(generations[id].releases) + 1)])
    {
      permits := permits + 1;
      generations := generations[id := generations[id].(releases := generations[id].releases + 1)];
    }

    method CompleteGeneration(id: nat, collection: Collection) returns (raises: bool)
      requires id < |generations|
      modifies this
      ensures Now() == Complete(old(Now()), id, collection).0 && raises == Complete(old(Now()), id, collection).1
      ensures raises <==> old(generations[id].settled) || collection.CollectionInterrupted?
      ensures completedTotal == old(completedTotal) + (if raises then 0 else 1) && failedTotal == old(failedTotal)
    {
      if generations[id].settled {
        return true;
      }
      generations := generations[id := generations[id].(settled := true)];
      if collection.CollectionInterrupted? {
        return true;
      }
      activeGenerations := activeGenerations - 1;
      completedTotal := completedTotal + 1;
      ReleaseSlot(id);
      raises := false;
    }

    method SetBody(id: nat, body: Body)
      requires id < |generations|
      modifies this
      ensures Now() == WithBody(old(Now()), id, body)
    {
      generations := generations[id := generations[id].(body := body)];
    }

    /** Run the body until it yields or ends. */
    method ResumeBody(id: nat, outcome: Outcome)
      requires id < |generations|
      modifies this
      ensures Now() == Resume(old(Now()), id, outcome)
    {
      var settled, streaming, usage := generations[id].settled, generations[id].stream.Stream?, generations[id].usage;
      match outcome
      case Yields => SetBody(id, Running);
      case Raises =>
        FailGeneration(id);
        SetBody(id, Over(RaisedInside));
      case Completes(collection) =>
        var raises := CompleteGeneration(id, collection);
        if raises {
          SetBody(id, Over(if settled then RaisedInside else Interrupted));
        } else if !streaming {
          SetBody(id, Over(Finished));
        } else {
          SetBody(id, Completed(if usage then 1 else 0));
        }
    }

    /** `_GenerationStream.__next__`. */
    method StreamNext(id: nat, outcome: Outcome)
      requires id < |generations| && generations[id].stream.Stream?
      modifies this
      ensures Now() == AfterNext(old(Now()), id, outcome)
    {
      generations := generations[id := generations[id].(stream := Stream(true, false))];
      var body := generations[id].body;
      if body.Completed? {
        SetBody(id, if body.left > 0 then Completed(body.left - 1) else Over(Finished));
      } else if !body.Over? {
        ResumeBody(id, outcome);
      }
    }

    /** `_GenerationStream.close`. */
    method StreamClose(id: nat)
      requires id < |generations| && generations[id].stream.Stream?
      modifies this
      ensures Now() == AfterStreamClose(old(Now()), id)
    {
      if generations[id].stream.started {
        var body := generations[id].body;
        if body.Running? {
          FailGeneration(id);
          SetBody(id, Over(RaisedInside));
        } else if body.Completed? {
          SetBody(id, Over(Finished));
        }
        return;
      }
      var abandon := generations[id].stream.abandon;
      generations := generations[id := generations[id].(stream := Stream(false, false))];
      if abandon {
        FailGeneration(id);
      }
    }
  }
}
