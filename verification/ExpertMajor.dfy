/** Expert-major prefill: grouping the routes by expert, running each expert once and
    scattering its results back, against the token-major double loop. `X` is a hidden state,
    `Y` an expert's output, and `run` the expert itself. */
module ExpertMajor {

  datatype Option<+T> = None | Some(value: T)
  datatype Result<+T> = Ok(value: T) | ValueError | RuntimeError

  /** A cell of the route matrix: a token and one of its routes. */
  datatype Cell = Cell(token: nat, route: nat)

  /** What the layer asked of the runtime. */
  datatype Event = Offered(expert: int) | RanGroup(expert: int, tokens: seq<nat>) | RanOne(expert: int, token: nat)

  ghost predicate Rectangular(rows: seq<seq<int>>) {
    rows != [] && forall t :: 0 <= t < |rows| ==> |rows[t]| == |rows[0]|
  }

  /** What stacking the outputs demands: at least one row, all of one width, and not zero. */
  ghost predicate Stackable(rows: seq<seq<int>>) {
    Rectangular(rows) && rows[0] != []
  }

  predicate HasCell(rows: seq<seq<int>>, c: Cell) {
    c.token < |rows| && c.route < |rows[c.token]|
  }

  function At(rows: seq<seq<int>>, c: Cell): int
    requires HasCell(rows, c)
  {
    rows[c.token][c.route]
  }

  /** The experts routed to, each listed once, in whatever order. */
  ghost predicate IsExpertOrder(order: seq<int>, rows: seq<seq<int>>) {
    && (forall i, j :: 0 <= i < j < |order| ==> order[i] != order[j])
    && (forall e :: e in order <==> exists c :: HasCell(rows, c) && At(rows, c) == e)
  }

  function RoutedRow<X, Y>(run: (int, X) -> Y, row: seq<int>, x: X): (r: seq<Y>)
    ensures |r| == |row| && forall k :: 0 <= k < |row| ==> r[k] == run(row[k], x)
  {
    seq(|row|, k requires 0 <= k < |row| => run(row[k], x))
  }

  /** The reference: every token's routes, one after the other. */
  function Routed<X, Y>(run: (int, X) -> Y, rows: seq<seq<int>>, xs: seq<X>): (r: seq<seq<Y>>)
    requires |xs| == |rows|
    ensures |r| == |rows| && forall t :: 0 <= t < |rows| ==> r[t] == RoutedRow(run, rows[t], xs[t])
  {
    if rows == [] then [] else [RoutedRow(run, rows[0], xs[0])] + Routed(run, rows[1..], xs[1..])
  }

  // ----- groups -----

  function RowRoutes(row: seq<int>, token: nat, expert: int, upTo: nat): seq<Cell>
    requires upTo <= |row|
  {
    if upTo == 0 then []
    else RowRoutes(row, token, expert, upTo - 1) + (if row[upTo - 1] == expert then [Cell(token, upTo - 1)] else [])
  }

  /** The routes of the first tokens that go to one expert, in row-major order. */
  function Routes(rows: seq<seq<int>>, expert: int, tokens: nat): seq<Cell>
    requires tokens <= |rows|
  {
    if tokens == 0 then []
    else Routes(rows, expert, tokens - 1) + RowRoutes(rows[tokens - 1], tokens - 1, expert, |rows[tokens - 1]|)
  }

  ghost predicate DistinctCells(cells: seq<Cell>) {
    forall i, j :: 0 <= i < j < |cells| ==> cells[i] != cells[j]
  }

  /** Earlier tokens come first, and the routes of one token in their order. */
  ghost predicate RowMajor(cells: seq<Cell>) {
    forall i, j :: 0 <= i < j < |cells| ==>
      cells[i].token < cells[j].token || (cells[i].token == cells[j].token && cells[i].route < cells[j].route)
  }

  lemma {:induction false} RowRoutesAre(row: seq<int>, token: nat, expert: int, upTo: nat)
    requires upTo <= |row|
    ensures forall c :: c in RowRoutes(row, token, expert, upTo) <==> c.token == token && c.route < upTo && row[c.route] == expert
    ensures DistinctCells(RowRoutes(row, token, expert, upTo)) && RowMajor(RowRoutes(row, token, expert, upTo))
  {
    if upTo > 0 { RowRoutesAre(row, token, expert, upTo - 1); }
  }

  lemma JoinDistinct(a: seq<Cell>, b: seq<Cell>)
    requires DistinctCells(a) && DistinctCells(b) && forall c :: c in a ==> c !in b
    ensures DistinctCells(a + b)
  {
    var all := a + b;
    forall i, j | 0 <= i < j < |all| ensures all[i] != all[j] {
      if i < |a| <= j {
        assert all[i] == a[i] && all[j] == b[j - |a|] && a[i] in a && b[j - |a|] in b;
      }
    }
  }

  lemma JoinRowMajor(a: seq<Cell>, b: seq<Cell>, token: nat)
    requires RowMajor(a) && RowMajor(b)
    requires (forall c :: c in a ==> c.token < token) && forall c :: c in b ==> c.token == token
    ensures RowMajor(a + b)
  {
    var all := a + b;
    forall i, j | 0 <= i < j < |all|
      ensures all[i].token < all[j].token || (all[i].token == all[j].token && all[i].route < all[j].route)
    {
      if i < |a| <= j {
        assert all[i] == a[i] && all[j] == b[j - |a|] && a[i] in a && b[j - |a|] in b;
      }
    }
  }

  /** A group holds exactly the cells routed to its expert, each once and row by row: the
      groups of the distinct experts partition the matrix. */
  lemma {:induction false} RoutesAre(rows: seq<seq<int>>, expert: int, tokens: nat)
    requires tokens <= |rows|
    ensures forall c :: c in Routes(rows, expert, tokens) <==> HasCell(rows, c) && c.token < tokens && At(rows, c) == expert
    ensures DistinctCells(Routes(rows, expert, tokens)) && RowMajor(Routes(rows, expert, tokens))
  {
    hide RowRoutes; hide DistinctCells; hide RowMajor;
    if tokens == 0 {
      NoCells();
    } else {
      var before, last := Routes(rows, expert, tokens - 1), RowRoutes(rows[tokens - 1], tokens - 1, expert, |rows[tokens - 1]|);
      RoutesAre(rows, expert, tokens - 1);
      RowRoutesAre(rows[tokens - 1], tokens - 1, expert, |rows[tokens - 1]|);
      JoinDistinct(before, last);
      JoinRowMajor(before, last, tokens - 1);
    }
  }

  lemma NoCells()
    ensures DistinctCells([]) && RowMajor([])
  {
  }

  // ----- the order of events -----

  function Min(a: nat, b: nat): nat {
    if a < b then a else b
  }

  function Offers(experts: seq<int>): seq<Event> {
    if experts == [] then [] else [Offered(experts[0])] + Offers(experts[1..])
  }

  function TokensOf(cells: seq<Cell>): (r: seq<nat>)
    ensures |r| == |cells| && forall i :: 0 <= i < |cells| ==> r[i] == cells[i].token
  {
    if cells == [] then [] else [cells[0].token] + TokensOf(cells[1..])
  }

  function Ahead(order: seq<int>, depth: nat, i: nat): seq<Event> {
    if depth > 0 && i + depth < |order| then [Offered(order[i + depth])] else []
  }

  /** Everything before the i-th expert is looked at: the first offers, then for each expert
      the offer `depth` places ahead and its own run. */
  function Schedule(order: seq<int>, depth: nat, runs: seq<Event>, i: nat): seq<Event>
    requires i <= |order| == |runs|
  {
    if i == 0 then (if depth == 0 then [] else Offers(order[..Min(depth, |order|)]))
    else Schedule(order, depth, runs, i - 1) + Ahead(order, depth, i - 1) + [runs[i - 1]]
  }

  function GroupRuns(rows: seq<seq<int>>, order: seq<int>): (r: seq<Event>)
    ensures |r| == |order|
    ensures forall i :: 0 <= i < |order| ==> r[i] == RanGroup(order[i], TokensOf(Routes(rows, order[i], |rows|)))
  {
    seq(|order|, i requires 0 <= i < |order| => RanGroup(order[i], TokensOf(Routes(rows, order[i], |rows|))))
  }

  function TokenRuns(row: seq<int>, token: nat): (r: seq<Event>)
    ensures |r| == |row| && forall i :: 0 <= i < |row| ==> r[i] == RanOne(row[i], token)
  {
    seq(|row|, i requires 0 <= i < |row| => RanOne(row[i], token))
  }

  /** The first token without routes, whose outputs cannot be stacked. */
  function FirstEmpty(rows: seq<seq<int>>): (n: nat)
    ensures n <= |rows| && (forall t :: 0 <= t < n ==> rows[t] != []) && (n < |rows| ==> rows[n] == [])
  {
    if rows == [] || rows[0] == [] then 0 else 1 + FirstEmpty(rows[1..])
  }

  function TokenSchedule(rows: seq<seq<int>>, depth: nat, tokens: nat): seq<Event>
    requires tokens <= |rows|
  {
    if tokens == 0 then []
    else
      var row := rows[tokens - 1];
      TokenSchedule(rows, depth, tokens - 1) + Schedule(row, depth, TokenRuns(row, tokens - 1), |row|)
  }

  function OfferedIn(log: seq<Event>): seq<int> {
    if log == [] then []
    else (if log[0].Offered? then [log[0].expert] else []) + OfferedIn(log[1..])
  }

  function RunsIn(log: seq<Event>): seq<Event> {
    if log == [] then []
    else (if log[0].Offered? then [] else [log[0]]) + RunsIn(log[1..])
  }

  lemma {:induction false} InConcat(a: seq<Event>, b: seq<Event>)
    ensures OfferedIn(a + b) == OfferedIn(a) + OfferedIn(b) && RunsIn(a + b) == RunsIn(a) + RunsIn(b)
  {
    hide OfferedIn; hide RunsIn;
    if a == [] {
      assert a + b == b;
      InNothing();
    } else {
      var rest := a[1..];
      assert (a + b)[1..] == rest + b && (a + b)[0] == a[0];
      InConcat(rest, b);
      InCons(a[0], rest);
      InCons(a[0], rest + b);
      assert [a[0]] + rest == a && [a[0]] + (rest + b) == a + b;
    }
  }

  lemma InCons(first: Event, rest: seq<Event>)
    ensures OfferedIn([first] + rest) == (if first.Offered? then [first.expert] else []) + OfferedIn(rest)
    ensures RunsIn([first] + rest) == (if first.Offered? then [] else [first]) + RunsIn(rest)
  {
    assert ([first] + rest)[1..] == rest;
  }

  lemma {:induction false} OffersAre(experts: seq<int>)
    ensures OfferedIn(Offers(experts)) == experts && RunsIn(Offers(experts)) == []
  {
    if experts != [] {
      var all := Offers(experts);
      assert all[0] == Offered(experts[0]) && all[1..] == Offers(experts[1..]);
      OffersAre(experts[1..]);
    }
  }

  lemma InOne(e: Event)
    ensures OfferedIn([e]) == (if e.Offered? then [e.expert] else []) && RunsIn([e]) == (if e.Offered? then [] else [e])
  {
    assert [e][1..] == [];
  }

  lemma ScheduleStep(order: seq<int>, depth: nat, runs: seq<Event>, i: nat)
    requires i < |order| == |runs| && !runs[i].Offered?
    ensures var before, after := Schedule(order, depth, runs, i), Schedule(order, depth, runs, i + 1);
            && OfferedIn(before + Ahead(order, depth, i)) == OfferedIn(before) + OfferedIn(Ahead(order, depth, i))
            && OfferedIn(after) == OfferedIn(before + Ahead(order, depth, i))
            && RunsIn(after) == RunsIn(before) + [runs[i]]
  {
    hide OfferedIn; hide RunsIn; hide Ahead;
    var before, ahead := Schedule(order, depth, runs, i), Ahead(order, depth, i);
    InConcat(before + ahead, [runs[i]]);
    InConcat(before, ahead);
    InOne(runs[i]);
    AheadIs(order, depth, i);
  }

  /** With look-ahead, when the i-th expert runs exactly the first i + depth + 1 experts of the
      order have been offered to prefetch, each once and in order; without it, none ever is. */
  lemma PrefetchWindow(order: seq<int>, depth: nat, runs: seq<Event>, i: nat)
    requires i < |order| == |runs| && forall k :: 0 <= k < |runs| ==> !runs[k].Offered?
    ensures OfferedIn(Schedule(order, depth, runs, i) + Ahead(order, depth, i)) ==
            if depth == 0 then [] else order[..Min(i + depth + 1, |order|)]
  {
    hide Schedule; hide OfferedIn; hide RunsIn; hide Ahead;
    ScheduleIs(order, depth, runs, i);
    ScheduleStep(order, depth, runs, i);
    OneMore(order, depth, i);
  }

  lemma OneMore(order: seq<int>, depth: nat, i: nat)
    ensures (if depth == 0 then [] else order[..Min(i + depth, |order|)]) + OfferedIn(Ahead(order, depth, i)) ==
            if depth == 0 then [] else order[..Min(i + depth + 1, |order|)]
  {
    hide OfferedIn; hide Ahead;
    AheadIs(order, depth, i);
    if depth > 0 && i + depth < |order| {
      assert order[..i + depth + 1] == order[..i + depth] + [order[i + depth]];
    }
  }

  /** The schedule runs the given experts in order, each once. */
  lemma {:induction false} ScheduleIs(order: seq<int>, depth: nat, runs: seq<Event>, i: nat)
    requires i <= |order| == |runs| && forall k :: 0 <= k < |runs| ==> !runs[k].Offered?
    ensures RunsIn(Schedule(order, depth, runs, i)) == runs[..i]
    ensures OfferedIn(Schedule(order, depth, runs, i)) == if depth == 0 then [] else order[..Min(i + depth, |order|)]
  {
    hide OfferedIn; hide RunsIn; hide Offers; hide Ahead; hide Schedule;
    if i == 0 {
      ScheduleStarts(order, depth, runs);
      OffersAre(order[..Min(depth, |order|)]);
      InNothing();
    } else {
      ScheduleIs(order, depth, runs, i - 1);
      ScheduleStep(order, depth, runs, i - 1);
      OneMore(order, depth, i - 1);
      assert runs[..i] == runs[..i - 1] + [runs[i - 1]];
    }
  }

  lemma AheadIs(order: seq<int>, depth: nat, i: nat)
    ensures RunsIn(Ahead(order, depth, i)) == []
    ensures OfferedIn(Ahead(order, depth, i)) == if depth > 0 && i + depth < |order| then [order[i + depth]] else []
  {
    hide RunsIn; hide OfferedIn;
    InNothing();
    if depth > 0 && i + depth < |order| { InOne(Offered(order[i + depth])); }
  }

  lemma InNothing()
    ensures OfferedIn([]) == [] && RunsIn([]) == []
  {
  }

  /** Token by token, every route is offered and runs alone, in its order. */
  lemma TokenScheduleIs(rows: seq<seq<int>>, depth: nat, t: nat)
    requires t < |rows|
    ensures RunsIn(TokenSchedule(rows, depth, 0)) == [] && OfferedIn(TokenSchedule(rows, depth, 0)) == []
    ensures RunsIn(TokenSchedule(rows, depth, t + 1)) ==
            RunsIn(TokenSchedule(rows, depth, t)) +
            seq(|rows[t]|, i requires 0 <= i < |rows[t]| => RanOne(rows[t][i], t))
    ensures OfferedIn(TokenSchedule(rows, depth, t + 1)) ==
            OfferedIn(TokenSchedule(rows, depth, t)) + if depth == 0 then [] else rows[t]
  {
    hide OfferedIn; hide RunsIn; hide Schedule;
    var row, runs := rows[t], TokenRuns(rows[t], t);
    InNothing();
    ScheduleIs(row, depth, runs, |row|);
    InConcat(TokenSchedule(rows, depth, t), Schedule(row, depth, runs, |row|));
    assert runs[..|row|] == seq(|row|, i requires 0 <= i < |row| => RanOne(row[i], t));
    assert row[..Min(|row| + depth, |row|)] == row;
  }

  // ----- the runtime's orders -----

  datatype PrefillOrder = ExpertId | ResidentFirst | DiskOffset

  /** The order of strings. */
  predicate StringLess(a: string, b: string) {
    b != "" && (a == "" || a[0] < b[0] || (a[0] == b[0] && StringLess(a[1..], b[1..])))
  }

  /** The sort key of `a` is at most that of `b`. */
  predicate Precedes(kind: PrefillOrder, resident: int -> bool, place: int -> (string, int), a: int, b: int) {
    match kind
    case ExpertId => a <= b
    case ResidentFirst => (resident(a) && !resident(b)) || (resident(a) == resident(b) && a <= b)
    case DiskOffset =>
      var (file, offset), (file', offset') := place(a), place(b);
      StringLess(file, file') || (file == file' && (offset < offset' || (offset == offset' && a <= b)))
  }

  function InsertExpert(kind: PrefillOrder, resident: int -> bool, place: int -> (string, int), e: int, sorted: seq<int>)
    : seq<int>
    decreases |sorted|
  {
    if sorted == [] || Precedes(kind, resident, place, e, sorted[0]) then [e] + sorted
    else [sorted[0]] + InsertExpert(kind, resident, place, e, sorted[1..])
  }

  /** `_order_experts`: `sorted` by one of three keys. */
  function OrderExperts(kind: PrefillOrder, resident: int -> bool, place: int -> (string, int), experts: seq<int>)
    : seq<int>
    decreases |experts|
  {
    if experts == [] then []
    else InsertExpert(kind, resident, place, experts[0], OrderExperts(kind, resident, place, experts[1..]))
  }

  ghost predicate InOrder(kind: PrefillOrder, resident: int -> bool, place: int -> (string, int), order: seq<int>) {
    forall i, j :: 0 <= i < j < |order| ==> Precedes(kind, resident, place, order[i], order[j])
  }

  lemma {:induction false} StringsAreOrdered(a: string, b: string)
    ensures a == b || StringLess(a, b) || StringLess(b, a)
  {
    if a != "" && b != "" && a[0] == b[0] {
      StringsAreOrdered(a[1..], b[1..]);
      assert a == [a[0]] + a[1..] && b == [b[0]] + b[1..];
    }
  }

  lemma {:induction false} StringLessIsTransitive(a: string, b: string, c: string)
    requires StringLess(a, b) && StringLess(b, c)
    ensures StringLess(a, c)
  {
    if a != "" && a[0] == b[0] == c[0] { StringLessIsTransitive(a[1..], b[1..], c[1..]); }
  }

  lemma PrecedesIsTotal(kind: PrefillOrder, resident: int -> bool, place: int -> (string, int), a: int, b: int)
    ensures Precedes(kind, resident, place, a, b) || Precedes(kind, resident, place, b, a)
  {
    StringsAreOrdered(place(a).0, place(b).0);
  }

  lemma PrecedesIsTransitive(kind: PrefillOrder, resident: int -> bool, place: int -> (string, int), a: int, b: int, c: int)
    requires Precedes(kind, resident, place, a, b) && Precedes(kind, resident, place, b, c)
    ensures Precedes(kind, resident, place, a, c)
  {
    var x, y, z := place(a).0, place(b).0, place(c).0;
    if StringLess(x, y) && StringLess(y, z) { StringLessIsTransitive(x, y, z); }
  }

  lemma {:induction false} InsertExpertIs(kind: PrefillOrder, resident: int -> bool, place: int -> (string, int), e: int,
                                          sorted: seq<int>)
    ensures multiset(InsertExpert(kind, resident, place, e, sorted)) == multiset(sorted) + multiset{e}
    decreases |sorted|
  {
    if !(sorted == [] || Precedes(kind, resident, place, e, sorted[0])) {
      InsertExpertIs(kind, resident, place, e, sorted[1..]);
      assert sorted == [sorted[0]] + sorted[1..];
    }
  }

  lemma InOrderCons(kind: PrefillOrder, resident: int -> bool, place: int -> (string, int), first: int, rest: seq<int>)
    ensures InOrder(kind, resident, place, [first] + rest) <==>
            InOrder(kind, resident, place, rest) && forall e :: e in rest ==> Precedes(kind, resident, place, first, e)
  {
    hide Precedes;
    var all := [first] + rest;
    assert all[0] == first && forall i :: 0 < i < |all| ==> all[i] == rest[i - 1];
    if InOrder(kind, resident, place, all) {
      forall e | e in rest ensures Precedes(kind, resident, place, first, e) {
        var i :| 0 <= i < |rest| && rest[i] == e;
        assert all[i + 1] == e;
      }
      forall i, j | 0 <= i < j < |rest| ensures Precedes(kind, resident, place, rest[i], rest[j]) {
        assert all[i + 1] == rest[i] && all[j + 1] == rest[j];
      }
    }
  }

  lemma {:induction false} InsertKeepsOrder(kind: PrefillOrder, resident: int -> bool, place: int -> (string, int), e: int,
                                            sorted: seq<int>)
    requires InOrder(kind, resident, place, sorted)
    ensures InOrder(kind, resident, place, InsertExpert(kind, resident, place, e, sorted))
    decreases |sorted|
  {
    hide InOrder; hide Precedes;
    if sorted == [] {
      NothingInOrder(kind, resident, place);
      InOrderCons(kind, resident, place, e, []);
    } else {
      var first, rest := sorted[0], sorted[1..];
      assert sorted == [first] + rest;
      InOrderCons(kind, resident, place, first, rest);
      PrecedesIsTotal(kind, resident, place, e, first);
      if Precedes(kind, resident, place, e, first) {
        forall x | x in rest ensures Precedes(kind, resident, place, e, x) {
          PrecedesIsTransitive(kind, resident, place, e, first, x);
        }
        InOrderCons(kind, resident, place, e, sorted);
      } else {
        InsertKeepsOrder(kind, resident, place, e, rest);
        InsertExpertIs(kind, resident, place, e, rest);
        var after := InsertExpert(kind, resident, place, e, rest);
        forall x | x in after ensures x == e || x in rest {
          assert x in multiset(after);
        }
        InOrderCons(kind, resident, place, first, after);
      }
    }
  }

  lemma NothingInOrder(kind: PrefillOrder, resident: int -> bool, place: int -> (string, int))
    ensures InOrder(kind, resident, place, [])
  {
  }

  /** Each order puts the experts in the order of its keys. */
  lemma {:induction false} OrderIsInOrder(kind: PrefillOrder, resident: int -> bool, place: int -> (string, int),
                                          experts: seq<int>)
    ensures InOrder(kind, resident, place, OrderExperts(kind, resident, place, experts))
    decreases |experts|
  {
    hide InOrder; hide Precedes; hide InsertExpert;
    if experts == [] {
      NothingInOrder(kind, resident, place);
    } else {
      OrderIsInOrder(kind, resident, place, experts[1..]);
      InsertKeepsOrder(kind, resident, place, experts[0], OrderExperts(kind, resident, place, experts[1..]));
    }
  }

  /** `a` comes before `b` in the dictionary: at the first place where they differ it has the
      smaller character, or ends there. */
  ghost predicate DictionaryLess(a: string, b: string) {
    exists k :: SplitsAt(a, b, k)
  }

  ghost predicate SplitsAt(a: string, b: string, k: nat) {
    k <= |a| && k < |b| && a[..k] == b[..k] && (k < |a| ==> a[k] < b[k])
  }

  lemma {:induction false} StringLessIsDictionary(a: string, b: string)
    ensures StringLess(a, b) ==> DictionaryLess(a, b)
  {
    if StringLess(a, b) {
      if a == "" || a[0] < b[0] {
        assert SplitsAt(a, b, 0);
      } else {
        StringLessIsDictionary(a[1..], b[1..]);
        var k: nat :| SplitsAt(a[1..], b[1..], k);
        assert a[..k + 1] == [a[0]] + a[1..][..k] && b[..k + 1] == [b[0]] + b[1..][..k];
        assert SplitsAt(a, b, k + 1);
      }
    }
  }

  /** What the three orders are: by expert id; resident experts first and each part by id; by
      the file and the offset a bundle lies at, and by id where they agree. */
  lemma OrdersAre(resident: int -> bool, place: int -> (string, int), experts: seq<int>, i: nat, j: nat)
    requires i < j < |experts|
    ensures var order := OrderExperts(ExpertId, resident, place, experts);
            |order| == |experts| && order[i] <= order[j]
    ensures var order := OrderExperts(ResidentFirst, resident, place, experts);
            |order| == |experts| && (resident(order[j]) ==> resident(order[i])) &&
            (resident(order[i]) == resident(order[j]) ==> order[i] <= order[j])
    ensures var order := OrderExperts(DiskOffset, resident, place, experts);
            |order| == |experts| &&
            var (a, b) := (place(order[i]), place(order[j]));
            DictionaryLess(a.0, b.0) || (a.0 == b.0 && (a.1 < b.1 || (a.1 == b.1 && order[i] <= order[j])))
  {
    hide OrderExperts; hide DictionaryLess; hide StringLess;
    OrderIsThere(ExpertId, resident, place, experts, i, j);
    OrderIsThere(ResidentFirst, resident, place, experts, i, j);
    OrderIsThere(DiskOffset, resident, place, experts, i, j);
    var order := OrderExperts(DiskOffset, resident, place, experts);
    StringLessIsDictionary(place(order[i]).0, place(order[j]).0);
  }

  lemma OrderIsThere(kind: PrefillOrder, resident: int -> bool, place: int -> (string, int), experts: seq<int>, i: nat,
                     j: nat)
    requires i < j < |experts|
    ensures var order := OrderExperts(kind, resident, place, experts);
            |order| == |experts| && Precedes(kind, resident, place, order[i], order[j])
  {
    hide Precedes;
    OrderPermutes(kind, resident, place, experts);
    var order := OrderExperts(kind, resident, place, experts);
    assert |order| == |multiset(order)| == |multiset(experts)| == |experts|;
    OrderIsInOrder(kind, resident, place, experts);
  }

  lemma {:induction false} OrderPermutes(kind: PrefillOrder, resident: int -> bool, place: int -> (string, int),
                                         experts: seq<int>)
    ensures multiset(OrderExperts(kind, resident, place, experts)) == multiset(experts)
    decreases |experts|
  {
    if experts != [] {
      OrderPermutes(kind, resident, place, experts[1..]);
      InsertExpertIs(kind, resident, place, experts[0], OrderExperts(kind, resident, place, experts[1..]));
      assert experts == [experts[0]] + experts[1..];
    }
  }

  lemma DistinctByCount(order: seq<int>)
    ensures (forall i, j :: 0 <= i < j < |order| ==> order[i] != order[j]) <==> forall e :: multiset(order)[e] <= 1
  {
    if forall i, j :: 0 <= i < j < |order| ==> order[i] != order[j] {
      forall e ensures multiset(order)[e] <= 1 {
        if e in order {
          var i :| 0 <= i < |order| && order[i] == e;
          assert order == order[..i] + [e] + order[i + 1..];
          assert e !in order[..i] && e !in order[i + 1..];
        }
      }
    }
    if forall e :: multiset(order)[e] <= 1 {
      forall i, j | 0 <= i < j < |order| ensures order[i] != order[j] {
        assert order == order[..j] + [order[j]] + order[j + 1..];
        assert multiset(order) == multiset(order[..j]) + multiset{order[j]} + multiset(order[j + 1..]);
        assert multiset(order)[order[j]] <= 1;
        assert order[i] == order[..j][i] && multiset(order[..j])[order[i]] > 0;
      }
    }
  }

  /** Every order of the runtime lists each routed expert exactly once. */
  lemma OrderIsExpertOrder(kind: PrefillOrder, resident: int -> bool, place: int -> (string, int), experts: seq<int>,
                           rows: seq<seq<int>>)
    requires IsExpertOrder(experts, rows)
    ensures IsExpertOrder(OrderExperts(kind, resident, place, experts), rows)
  {
    var order := OrderExperts(kind, resident, place, experts);
    OrderPermutes(kind, resident, place, experts);
    DistinctByCount(experts);
    DistinctByCount(order);
    forall e ensures e in order <==> e in experts {
      assert e in order <==> e in multiset(order);
      assert e in experts <==> e in multiset(experts);
    }
  }

  // ----- the layer -----

  /** `experts` are the keys of `groups` in the order in which they were inserted. */
  ghost predicate AreKeys(experts: seq<int>, groups: map<int, seq<Cell>>) {
    && (forall i, j :: 0 <= i < j < |experts| ==> experts[i] != experts[j])
    && (forall e :: e in experts <==> e in groups)
    && (forall e :: e in groups ==> groups[e] != [])
  }

  /** The grouping loop; rows of different widths are refused. */
  method GroupRoutes(rows: seq<seq<int>>) returns (r: Result<map<int, seq<Cell>>>, experts: seq<int>)
    ensures r.Ok? <==> Rectangular(rows)
    ensures r.Ok? ==> IsGrouping(r.value, rows, |rows|, 0) && IsExpertOrder(experts, rows)
  {
    hide IsGrouping; hide AreKeys; hide IsExpertOrder;
    experts := [];
    if rows == [] {
      return ValueError, experts;
    }
    var topK := |rows[0]|;
    var groups: map<int, seq<Cell>> := map[];
    NothingSeen(rows);
    for t := 0 to |rows|
      invariant forall u :: 0 <= u < t ==> |rows[u]| == topK
      invariant IsGrouping(groups, rows, t, 0) && AreKeys(experts, groups)
    {
      if |rows[t]| != topK {
        return ValueError, experts;
      }
      for k := 0 to topK
        invariant IsGrouping(groups, rows, t, k) && AreKeys(experts, groups)
      {
        var expert := rows[t][k];
        CellSeen(groups, rows, t, k);
        KeyInserted(experts, groups, expert, Cell(t, k));
        if expert !in groups {
          experts, groups := experts + [expert], groups[expert := []];
        }
        groups := groups[expert := groups[expert] + [Cell(t, k)]];
      }
      RowSeen(groups, rows, t);
    }
    KeysAreExperts(experts, groups, rows);
    r := Ok(groups);
  }

  lemma KeyInserted(experts: seq<int>, groups: map<int, seq<Cell>>, expert: int, c: Cell)
    requires AreKeys(experts, groups)
    ensures var now := if expert in groups then groups else groups[expert := []];
            && now[expert := now[expert] + [c]] ==
               groups[expert := (if expert in groups then groups[expert] else []) + [c]]
            && AreKeys(if expert in groups then experts else experts + [expert], now[expert := now[expert] + [c]])
  {
  }

  lemma KeysAreExperts(experts: seq<int>, groups: map<int, seq<Cell>>, rows: seq<seq<int>>)
    requires AreKeys(experts, groups) && IsGrouping(groups, rows, |rows|, 0)
    ensures IsExpertOrder(experts, rows)
  {
    forall e ensures e in experts <==> exists c :: HasCell(rows, c) && At(rows, c) == e {
      RoutesAre(rows, e, |rows|);
      assert Seen(rows, e, |rows|, 0) == Routes(rows, e, |rows|);
      if e in groups {
        assert groups[e][0] in Routes(rows, e, |rows|);
      }
    }
  }

  lemma NothingSeen(rows: seq<seq<int>>)
    ensures IsGrouping(map[], rows, 0, 0) && AreKeys([], map[])
  {
  }

  lemma CellSeen(groups: map<int, seq<Cell>>, rows: seq<seq<int>>, t: nat, k: nat)
    requires IsGrouping(groups, rows, t, k) && t < |rows| && k < |rows[t]|
    ensures var expert := rows[t][k];
            IsGrouping(groups[expert := (if expert in groups then groups[expert] else []) + [Cell(t, k)]], rows, t, k + 1)
  {
    hide Routes;
    var expert := rows[t][k];
    var after := groups[expert := (if expert in groups then groups[expert] else []) + [Cell(t, k)]];
    forall e ensures Seen(rows, e, t, k + 1) == if e in after then after[e] else [] {
      assert Seen(rows, e, t, k + 1) == Seen(rows, e, t, k) + if e == expert then [Cell(t, k)] else [];
    }
  }

  lemma RowSeen(groups: map<int, seq<Cell>>, rows: seq<seq<int>>, t: nat)
    requires t < |rows| && IsGrouping(groups, rows, t, |rows[t]|)
    ensures IsGrouping(groups, rows, t + 1, 0)
  {
    hide Routes; hide RowRoutes;
    forall e ensures Seen(rows, e, t + 1, 0) == Seen(rows, e, t, |rows[t]|) {
      RoutesStep(rows, e, t);
    }
  }

  lemma RoutesStep(rows: seq<seq<int>>, e: int, t: nat)
    requires t < |rows|
    ensures Routes(rows, e, t + 1) == Routes(rows, e, t) + RowRoutes(rows[t], t, e, |rows[t]|)
    ensures t + 1 < |rows| ==> RowRoutes(rows[t + 1], t + 1, e, 0) == []
  {
  }

  class StreamingSwitchGLU<X, Y> {
    const run: (int, X) -> Y
    const prefetchDepth: nat
    const expertMajor: bool
    var log: seq<Event>

    constructor (run: (int, X) -> Y, prefetchDepth: nat, expertMajor: bool)
      ensures this.run == run && this.prefetchDepth == prefetchDepth && this.expertMajor == expertMajor && log == []
    {
      this.run, this.prefetchDepth, this.expertMajor, log := run, prefetchDepth, expertMajor, [];
    }

    method SchedulePrefetch(experts: seq<int>)
      modifies this
      ensures log == old(log) + if prefetchDepth == 0 then [] else Offers(experts)
    {
      if prefetchDepth == 0 {
        return;
      }
      assert experts[0..] == experts;
      for i := 0 to |experts|
        invariant log + Offers(experts[i..]) == old(log) + Offers(experts)
      {
        assert experts[i..][0] == experts[i] && experts[i..][1..] == experts[i + 1..];
        log := log + [Offered(experts[i])];
      }
      assert experts[|experts|..] == [];
    }

    /** The look-ahead offer of one step. */
    method ScheduleAhead(order: seq<int>, i: nat)
      requires i < |order|
      modifies this
      ensures log == old(log) + Ahead(order, prefetchDepth, i)
    {
      var next := i + prefetchDepth;
      if next < |order| {
        SchedulePrefetch([order[next]]);
        assert [order[next]][1..] == [];
      }
    }

    method ExecuteGroup(expert: int, tokens: seq<nat>, xs: seq<X>) returns (values: seq<Y>)
      requires forall g :: 0 <= g < |tokens| ==> tokens[g] < |xs|
      modifies this
      ensures log == old(log) + [RanGroup(expert, tokens)]
      ensures |values| == |tokens| && forall g :: 0 <= g < |tokens| ==> values[g] == run(expert, xs[tokens[g]])
    {
      log := log + [RanGroup(expert, tokens)];
      values := [];
      for g := 0 to |tokens|
        invariant log == old(log) + [RanGroup(expert, tokens)]
        invariant |values| == g && forall h :: 0 <= h < g ==> values[h] == run(expert, xs[tokens[h]])
      {
        values := values + [run(expert, xs[tokens[g]])];
      }
    }

    /** `_token_major`: the outputs of each token are stacked, and then the tokens. */
    method TokenMajor(rows: seq<seq<int>>, xs: seq<X>) returns (r: Result<seq<seq<Y>>>)
      requires |xs| == |rows|
      modifies this
      ensures r == if Stackable(rows) then Ok(Routed(run, rows, xs)) else ValueError
      ensures log == old(log) + TokenSchedule(rows, prefetchDepth, FirstEmpty(rows))
    {
      hide Routed; hide Schedule; hide FirstEmpty;
      var out: seq<seq<Y>> := [];
      for t := 0 to |rows|
        invariant t <= FirstEmpty(rows) && out == Routed(run, rows, xs)[..t]
        invariant log == old(log) + TokenSchedule(rows, prefetchDepth, t)
      {
        var row := rows[t];
        if row == [] {
          assert !Stackable(rows);
          return ValueError;
        }
        var values := TokenRow(row, t, xs[t]);
        out := out + [values];
      }
      if rows == [] || exists t :: 0 <= t < |rows| && |rows[t]| != |rows[0]| {
        assert !Stackable(rows);
        return ValueError;
      }
      assert Stackable(rows) && out == Routed(run, rows, xs);
      r := Ok(out);
    }

    method TokenRow(row: seq<int>, token: nat, x: X) returns (values: seq<Y>)
      modifies this
      ensures values == RoutedRow(run, row, x)
      ensures log == old(log) + Schedule(row, prefetchDepth, TokenRuns(row, token), |row|)
    {
      hide RoutedRow; hide Offers; hide Ahead; hide TokenRuns; hide Schedule;
      ghost var runs := TokenRuns(row, token);
      SchedulePrefetch(row[..Min(prefetchDepth, |row|)]);
      ScheduleStarts(row, prefetchDepth, runs);
      values := [];
      for r := 0 to |row|
        invariant |values| == r && forall k :: 0 <= k < r ==> values[k] == run(row[k], x)
        invariant log == old(log) + Schedule(row, prefetchDepth, runs, r)
      {
        ScheduleAhead(row, r);
        ScheduleNext(row, prefetchDepth, runs, r);
        log := log + [RanOne(row[r], token)];
        values := values + [run(row[r], x)];
      }
    }
  
    /** One expert of the order: run its whole group and scatter the results. */
    method RunGroup(rows: seq<seq<int>>, xs: seq<X>, order: seq<int>, i: nat, groups: map<int, seq<Cell>>,
                    filled: seq<seq<Option<Y>>>)
      returns (after: seq<seq<Option<Y>>>)
      requires |xs| == |rows| && IsExpertOrder(order, rows) && i < |order| && IsGrouping(groups, rows, |rows|, 0)
      requires IsFilled(run, rows, xs, filled, order[..i])
      modifies this
      ensures log == old(log) + [GroupRuns(rows, order)[i]]
      ensures IsFilled(run, rows, xs, after, order[..i + 1])
    {
      var expert := order[i];
      GroupIsRoutes(groups, rows, order, expert);
      NotYet(order, rows, i);
      hide IsGrouping; hide IsFilled; hide IsExpertOrder; hide DistinctCells;
      var routes := groups[expert];
      RoutesAre(rows, expert, |rows|);
      InGroup(rows, routes, expert);
      var values := ExecuteGroup(expert, TokensOf(routes), xs);
      after := Scatter(run, rows, xs, filled, order[..i], expert, routes, values);
    }

    /** The groups, run in any order of the routed experts. */
    method RunGroups(rows: seq<seq<int>>, xs: seq<X>, order: seq<int>, groups: map<int, seq<Cell>>)
      returns (r: Result<seq<seq<Y>>>)
      requires |xs| == |rows| && Rectangular(rows) && IsExpertOrder(order, rows) && IsGrouping(groups, rows, |rows|, 0)
      modifies this
      ensures r == if rows[0] == [] then ValueError else Ok(Routed(run, rows, xs))
      ensures log == old(log) + Schedule(order, prefetchDepth, GroupRuns(rows, order), |order|)
    {
      hide IsGrouping; hide IsFilled; hide Schedule; hide DistinctCells; hide Routed; hide Ahead; hide Offers;
      hide GroupRuns;
      var topK := |rows[0]|;
      var filled: seq<seq<Option<Y>>> := seq(|rows|, _ => seq(topK, _ => None));
      SchedulePrefetch(order[..Min(prefetchDepth, |order|)]);
      ghost var runs := GroupRuns(rows, order);
      ScheduleStarts(order, prefetchDepth, runs);
      NothingFilled(run, rows, xs, filled);
      assert order[..0] == [];
      for i := 0 to |order|
        invariant log == old(log) + Schedule(order, prefetchDepth, runs, i)
        invariant IsFilled(run, rows, xs, filled, order[..i])
      {
        ScheduleAhead(order, i);
        filled := RunGroup(rows, xs, order, i, groups, filled);
        ScheduleNext(order, prefetchDepth, runs, i);
      }
      assert order[..|order|] == order;
      AllFilled(run, rows, xs, filled, order);
      r := Unwrap(filled);
      if r.Ok? {
        UnwrappedIsRouted(run, rows, xs, filled, r.value);
        if topK == 0 {
          return ValueError;   // an empty row cannot be stacked
        }
      }
    }

    /** `_expert_major_prefill`: `resident` and `place` are what the runtime's order looks at. */
    method ExpertMajorPrefill(rows: seq<seq<int>>, xs: seq<X>, kind: PrefillOrder, resident: int -> bool,
                              place: int -> (string, int))
      returns (r: Result<seq<seq<Y>>>, order: seq<int>)
      requires |xs| == |rows|
      modifies this
      ensures r == if Stackable(rows) then Ok(Routed(run, rows, xs)) else ValueError
      ensures Rectangular(rows) ==> IsExpertOrder(order, rows) && InOrder(kind, resident, place, order)
      ensures Rectangular(rows) ==> log == old(log) + Schedule(order, prefetchDepth, GroupRuns(rows, order), |order|)
      ensures !Rectangular(rows) ==> log == old(log)
    {
      hide IsGrouping; hide Schedule; hide Routed; hide GroupRuns; hide IsExpertOrder; hide InOrder; hide OrderExperts;
      order := [];
      var grouped, experts := GroupRoutes(rows);
      if !grouped.Ok? {
        return ValueError, order;
      }
      order := OrderExperts(kind, resident, place, experts);
      OrderIsExpertOrder(kind, resident, place, experts, rows);
      OrderIsInOrder(kind, resident, place, experts);
      r := RunGroups(rows, xs, order, grouped.value);
    }

    /** The layer: one of the two strategies. */
    method Apply(rows: seq<seq<int>>, xs: seq<X>, kind: PrefillOrder, resident: int -> bool, place: int -> (string, int))
      returns (r: Result<seq<seq<Y>>>)
      requires |xs| == |rows|
      modifies this
      ensures r == if Stackable(rows) then Ok(Routed(run, rows, xs)) else ValueError
      ensures !expertMajor || |rows| <= 1 ==> log == old(log) + TokenSchedule(rows, prefetchDepth, FirstEmpty(rows))
      ensures expertMajor && |rows| > 1 && Rectangular(rows) ==>
                exists order :: IsExpertOrder(order, rows) && InOrder(kind, resident, place, order) &&
                  log == old(log) + Schedule(order, prefetchDepth, GroupRuns(rows, order), |order|)
    {
      hide IsExpertOrder; hide InOrder; hide Schedule; hide GroupRuns; hide TokenSchedule; hide Routed;
      if expertMajor && |rows| > 1 {
        var order: seq<int>;
        r, order := ExpertMajorPrefill(rows, xs, kind, resident, place);
      } else {
        r := TokenMajor(rows, xs);
      }
    }
  }

  // ----- what the loops of the prefill keep -----

  /** The cells seen so far: whole rows before `token`, and the first `route` cells of it. */
  function Seen(rows: seq<seq<int>>, expert: int, token: nat, route: nat): seq<Cell>
    requires token <= |rows| && (token < |rows| ==> route <= |rows[token]|) && (token == |rows| ==> route == 0)
  {
    Routes(rows, expert, token) + if token < |rows| then RowRoutes(rows[token], token, expert, route) else []
  }

  /** `groups` lists the cells of each expert seen so far. */
  ghost predicate IsGrouping(groups: map<int, seq<Cell>>, rows: seq<seq<int>>, token: nat, route: nat) {
    && token <= |rows| && (token < |rows| ==> route <= |rows[token]|) && (token == |rows| ==> route == 0)
    && forall e :: Seen(rows, e, token, route) == if e in groups then groups[e] else []
  }

  ghost predicate SameShape<Y>(filled: seq<seq<Option<Y>>>, rows: seq<seq<int>>) {
    |filled| == |rows| && forall t :: 0 <= t < |rows| ==> |filled[t]| == |rows[t]|
  }

  /** Exactly the cells of the experts done so far are filled, with the right values. */
  ghost predicate IsFilled<X, Y>(run: (int, X) -> Y, rows: seq<seq<int>>, xs: seq<X>, filled: seq<seq<Option<Y>>>,
                                 done: seq<int>)
    requires |xs| == |rows|
  {
    && SameShape(filled, rows)
    && forall t, r :: 0 <= t < |rows| && 0 <= r < |rows[t]| ==>
         filled[t][r] == if rows[t][r] in done then Some(run(rows[t][r], xs[t])) else None
  }

  function Values<Y>(row: seq<Option<Y>>): (r: seq<Y>)
    requires forall k :: 0 <= k < |row| ==> row[k].Some?
    ensures |r| == |row| && forall k :: 0 <= k < |row| ==> r[k] == row[k].value
  {
    if row == [] then [] else [row[0].value] + Values(row[1..])
  }

  /** Hand a group's results back to its cells; no cell is written twice. */
  method Scatter<X, Y>(run: (int, X) -> Y, rows: seq<seq<int>>, xs: seq<X>, filled: seq<seq<Option<Y>>>,
                       done: seq<int>, expert: int, routes: seq<Cell>, values: seq<Y>)
    returns (after: seq<seq<Option<Y>>>)
    requires |xs| == |rows| && IsFilled(run, rows, xs, filled, done) && expert !in done
    requires DistinctCells(routes) && forall c :: c in routes <==> HasCell(rows, c) && At(rows, c) == expert
    requires |values| == |routes|
    requires forall g :: 0 <= g < |routes| ==> routes[g].token < |xs| && values[g] == run(expert, xs[routes[g].token])
    ensures IsFilled(run, rows, xs, after, done + [expert])
  {
    after := filled;
    for g := 0 to |routes|
      invariant SameShape(after, rows)
      invariant forall t, r :: 0 <= t < |rows| && 0 <= r < |rows[t]| ==>
                  after[t][r] == if rows[t][r] in done || Cell(t, r) in routes[..g]
                                 then Some(run(rows[t][r], xs[t])) else None
    {
      var c := routes[g];
      assert c in routes && HasCell(rows, c) && At(rows, c) == expert;
      assert c !in routes[..g];
      assert after[c.token][c.route].None?;
      after := after[c.token := after[c.token][c.route := Some(values[g])]];
      assert routes[..g + 1] == routes[..g] + [c];
    }
    assert routes[..|routes|] == routes;
  }

  lemma NotYet(order: seq<int>, rows: seq<seq<int>>, i: nat)
    requires IsExpertOrder(order, rows) && i < |order|
    ensures order[i] !in order[..i] && order[..i + 1] == order[..i] + [order[i]]
  {
  }

  lemma InGroup(rows: seq<seq<int>>, routes: seq<Cell>, expert: int)
    requires forall c :: c in routes <==> HasCell(rows, c) && c.token < |rows| && At(rows, c) == expert
    ensures forall c :: c in routes <==> HasCell(rows, c) && At(rows, c) == expert
    ensures forall g :: 0 <= g < |routes| ==> routes[g].token < |rows|
  {
    assert forall g :: 0 <= g < |routes| ==> routes[g] in routes;
  }

  lemma ScheduleNext(order: seq<int>, depth: nat, runs: seq<Event>, i: nat)
    requires i < |order| == |runs|
    ensures Schedule(order, depth, runs, i + 1) == Schedule(order, depth, runs, i) + Ahead(order, depth, i) + [runs[i]]
  {
  }

  lemma GroupIsRoutes(groups: map<int, seq<Cell>>, rows: seq<seq<int>>, order: seq<int>, expert: int)
    requires IsGrouping(groups, rows, |rows|, 0) && IsExpertOrder(order, rows) && expert in order
    ensures expert in groups && groups[expert] == Routes(rows, expert, |rows|)
  {
    assert Seen(rows, expert, |rows|, 0) == Routes(rows, expert, |rows|);
    var c :| HasCell(rows, c) && At(rows, c) == expert;
    RoutesAre(rows, expert, |rows|);
    assert c in Routes(rows, expert, |rows|);
  }

  /** The final check that no cell was left unfilled, and the stacked outputs. */
  method Unwrap<Y>(filled: seq<seq<Option<Y>>>) returns (r: Result<seq<seq<Y>>>)
    ensures r.Ok? || r.RuntimeError?
    ensures r.Ok? <==> forall t, k :: 0 <= t < |filled| && 0 <= k < |filled[t]| ==> filled[t][k].Some?
    ensures r.Ok? ==> |r.value| == |filled| && forall t :: 0 <= t < |filled| ==>
              |r.value[t]| == |filled[t]| && forall k :: 0 <= k < |filled[t]| ==> filled[t][k] == Some(r.value[t][k])
  {
    if exists t, k :: 0 <= t < |filled| && 0 <= k < |filled[t]| && filled[t][k].None? {
      return RuntimeError;
    }
    var out: seq<seq<Y>> := [];
    for t := 0 to |filled|
      invariant |out| == t && forall u :: 0 <= u < t ==>
                  |out[u]| == |filled[u]| && forall k :: 0 <= k < |filled[u]| ==> filled[u][k] == Some(out[u][k])
    {
      out := out + [Values(filled[t])];
    }
    r := Ok(out);
  }

  lemma UnwrappedIsRouted<X, Y>(run: (int, X) -> Y, rows: seq<seq<int>>, xs: seq<X>, filled: seq<seq<Option<Y>>>,
                                out: seq<seq<Y>>)
    requires |xs| == |rows| == |filled| == |out| && SameShape(filled, rows)
    requires forall t, r :: 0 <= t < |rows| && 0 <= r < |rows[t]| ==> filled[t][r] == Some(run(rows[t][r], xs[t]))
    requires forall t :: 0 <= t < |filled| ==>
               |out[t]| == |filled[t]| && forall k :: 0 <= k < |filled[t]| ==> filled[t][k] == Some(out[t][k])
    ensures out == Routed(run, rows, xs)
  {
    hide Routed;
    forall t | 0 <= t < |rows| ensures out[t] == Routed(run, rows, xs)[t] {
      assert forall k :: 0 <= k < |rows[t]| ==> filled[t][k] == Some(out[t][k]);
    }
  }

  lemma ScheduleStarts(order: seq<int>, depth: nat, runs: seq<Event>)
    requires |runs| == |order|
    ensures Schedule(order, depth, runs, 0) == if depth == 0 then [] else Offers(order[..Min(depth, |order|)])
  {
  }

  lemma NothingFilled<X, Y>(run: (int, X) -> Y, rows: seq<seq<int>>, xs: seq<X>, filled: seq<seq<Option<Y>>>)
    requires |xs| == |rows| && SameShape(filled, rows)
    requires forall t, r :: 0 <= t < |rows| && 0 <= r < |rows[t]| ==> filled[t][r].None?
    ensures IsFilled(run, rows, xs, filled, [])
  {
  }

  lemma AllFilled<X, Y>(run: (int, X) -> Y, rows: seq<seq<int>>, xs: seq<X>, filled: seq<seq<Option<Y>>>,
                        order: seq<int>)
    requires |xs| == |rows| && IsFilled(run, rows, xs, filled, order) && IsExpertOrder(order, rows)
    ensures SameShape(filled, rows)
    ensures forall t, r :: 0 <= t < |rows| && 0 <= r < |rows[t]| ==> filled[t][r] == Some(run(rows[t][r], xs[t]))
  {
    forall t, r | 0 <= t < |rows| && 0 <= r < |rows[t]| ensures rows[t][r] in order {
      assert HasCell(rows, Cell(t, r)) && At(rows, Cell(t, r)) == rows[t][r];
    }
  }
}
