/** The expert store: reading one bundle with physically adjacent spans merged into single
    device reads, against the reference that slices every span out of its file. */
module ExpertStore {
  import L = LruPolicy

  type Bytes = seq<bv8>
  type Files = map<string, Bytes>

  datatype Option<+T> = None | Some(value: T)
  datatype Result<+T> = Ok(value: T) | Err(error: Error)
  datatype Error =
    | DuplicateRole(role: string)
    | InvalidSpan(tensorName: string)
    | Unavailable(file: string)
    | OutOfRange(file: string, offset: int, nbytes: int)
    | IncorrectLength(key: L.Key)

  /** The byte range of one tensor of one expert. */
  datatype Span = Span(file: string, tensorName: string, offset: int, nbytes: int,
                       shape: seq<int>, dtype: string, role: string)
  datatype Bundle = Bundle(key: L.Key, tensors: seq<Span>, totalBytes: int)

  datatype Counters = Counters(bytesRead: nat, readCount: nat)

  // ----- the reference: every span on its own -----

  predicate ValidSpan(s: Span) {
    s.offset >= 0 && s.nbytes > 0
  }

  predicate InFile(files: Files, s: Span) {
    ValidSpan(s) && s.file in files && s.offset + s.nbytes <= |files[s.file]|
  }

  function Slice(files: Files, s: Span): Bytes
    requires InFile(files, s)
  {
    files[s.file][s.offset..s.offset + s.nbytes]
  }

  ghost predicate AllInFile(files: Files, spans: seq<Span>) {
    forall s :: s in spans ==> InFile(files, s)
  }

  ghost predicate UniqueRoles(spans: multiset<Span>) {
    forall s, t :: s in spans && t in spans && s.role == t.role ==> s == t && spans[s] == 1
  }

  function SumBytes(spans: seq<Span>): int {
    if spans == [] then 0 else spans[0].nbytes + SumBytes(spans[1..])
  }

  /** `out` maps every role to exactly its file slice, and nothing else. */
  ghost predicate IsSlices(files: Files, spans: seq<Span>, out: map<string, Bytes>)
    requires AllInFile(files, spans)
  {
    && (forall role :: role in out <==> exists s :: s in spans && s.role == role)
    && (forall s :: s in spans ==> s.role in out && out[s.role] == Slice(files, s))
  }

  // ----- grouping, ordering and merging -----

  /** The files of the spans in order of first appearance. */
  function FilesOf(spans: seq<Span>): seq<string> {
    if spans == [] then []
    else
      var before, file := FilesOf(spans[..|spans| - 1]), spans[|spans| - 1].file;
      if file in before then before else before + [file]
  }

  function SpansOf(spans: seq<Span>, file: string): seq<Span> {
    if spans == [] then []
    else
      var before, last := SpansOf(spans[..|spans| - 1], file), spans[|spans| - 1];
      if last.file == file then before + [last] else before
  }

  function Insert(s: Span, sorted: seq<Span>): seq<Span> {
    if sorted == [] || s.offset <= sorted[0].offset then [s] + sorted else [sorted[0]] + Insert(s, sorted[1..])
  }

  /** `list.sort` by offset. */
  function Sort(spans: seq<Span>): seq<Span> {
    if spans == [] then [] else Insert(spans[0], Sort(spans[1..]))
  }

  predicate Adjacent(a: Span, b: Span) {
    b.offset == a.offset + a.nbytes
  }

  /** Cut a list between any two neighbours that are not adjacent. */
  function Runs(spans: seq<Span>): (r: seq<seq<Span>>)
    ensures spans != [] ==> r != [] && r[0] != []
  {
    if spans == [] then []
    else
      var rest := Runs(spans[1..]);
      if |spans| > 1 && Adjacent(spans[0], spans[1]) then [[spans[0]] + rest[0]] + rest[1..]
      else [[spans[0]]] + rest
  }

  function PlanFor(files: seq<string>, spans: seq<Span>): seq<seq<Span>> {
    if files == [] then [] else Runs(Sort(SpansOf(spans, files[0]))) + PlanFor(files[1..], spans)
  }

  /** The device reads of a bundle, in order. */
  function Plan(spans: seq<Span>): seq<seq<Span>> {
    PlanFor(FilesOf(spans), spans)
  }

  // ----- what reading does -----

  /** Python's `s[lo:hi]`. */
  function PySlice(s: Bytes, lo: int, hi: int): Bytes {
    var from, to := Clamp(lo, |s|), Clamp(hi, |s|);
    if from <= to then s[from..to] else []
  }

  function Clamp(i: int, n: nat): (r: nat)
    ensures r <= n
  {
    if i < 0 then (if i + n < 0 then 0 else i + n) else if i > n then n else i
  }

  function Pread(files: Files, c: Counters, file: string, offset: int, nbytes: int): (Counters, Result<Bytes>) {
    if file !in files then (c, Err(Unavailable(file)))
    else if offset + nbytes > |files[file]| || offset < 0 || nbytes < 0 then (c, Err(OutOfRange(file, offset, nbytes)))
    else (Counters(c.bytesRead + nbytes, c.readCount + 1), Ok(files[file][offset..offset + nbytes]))
  }

  function Deliver(out: map<string, Bytes>, blob: Bytes, start: int, run: seq<Span>): map<string, Bytes>
    decreases |run|
  {
    if run == [] then out
    else
      var begin := run[0].offset - start;
      Deliver(out[run[0].role := PySlice(blob, begin, begin + run[0].nbytes)], blob, start, run[1..])
  }

  datatype Progress = Progress(counters: Counters, result: Result<map<string, Bytes>>)

  function ReadRun(files: Files, c: Counters, out: map<string, Bytes>, run: seq<Span>): Progress {
    if run == [] then Progress(c, Ok(out))
    else
      var start, last := run[0].offset, run[|run| - 1];
      var (c', data) := Pread(files, c, run[0].file, start, last.offset + last.nbytes - start);
      if data.Err? then Progress(c', Err(data.error)) else Progress(c', Ok(Deliver(out, data.value, start, run)))
  }

  function ReadRuns(files: Files, c: Counters, out: map<string, Bytes>, runs: seq<seq<Span>>): Progress
    decreases |runs|
  {
    if runs == [] then Progress(c, Ok(out))
    else
      var p := ReadRun(files, c, out, runs[0]);
      if p.result.Err? then p else ReadRuns(files, p.counters, p.result.value, runs[1..])
  }

  function Validate(spans: seq<Span>, seen: set<string>): Option<Error>
    decreases |spans|
  {
    if spans == [] then None
    else if spans[0].role in seen then Some(DuplicateRole(spans[0].role))
    else if !ValidSpan(spans[0]) then Some(InvalidSpan(spans[0].tensorName))
    else Validate(spans[1..], seen + {spans[0].role})
  }

  ghost function TotalLength(out: map<string, Bytes>): nat {
    if out == map[] then 0
    else
      var k :| k in out;
      |out[k]| + TotalLength(out - {k})
  }

  ghost function ReadBundle(files: Files, c: Counters, bundle: Bundle): Progress {
    var invalid := Validate(bundle.tensors, {});
    if invalid.Some? then Progress(c, Err(invalid.value))
    else
      var p := ReadRuns(files, c, map[], Plan(bundle.tensors));
      if p.result.Ok? && TotalLength(p.result.value) != bundle.totalBytes
      then Progress(p.counters, Err(IncorrectLength(bundle.key)))
      else p
  }

  // ----- the store -----

  class SafetensorsExpertStore {
    const files: Files
    var bytesRead: nat
    var readCount: nat

    constructor (files: Files)
      ensures this.files == files && bytesRead == 0 && readCount == 0
    {
      this.files := files;
      bytesRead, readCount := 0, 0;
    }

    ghost function Now(): Counters
      reads this
    {
      Counters(bytesRead, readCount)
    }

    method PreadRange(file: string, offset: int, nbytes: int) returns (data: Result<Bytes>)
      modifies this
      ensures (Now(), data) == Pread(files, old(Now()), file, offset, nbytes)
    {
      if file !in files {
        return Err(Unavailable(file));
      }
      if offset + nbytes > |files[file]| || offset < 0 || nbytes < 0 {
        return Err(OutOfRange(file, offset, nbytes));
      }
      data := Ok(files[file][offset..offset + nbytes]);
      bytesRead := bytesRead + |data.value|;
      readCount := readCount + 1;
    }

    method ReadAdjacentRun(out: map<string, Bytes>, run: seq<Span>) returns (r: Result<map<string, Bytes>>)
      modifies this
      ensures Progress(Now(), r) == ReadRun(files, old(Now()), out, run)
    {
      hide PySlice; hide Deliver;
      if run == [] {
        return Ok(out);
      }
      if |run| == 1 {
        var one := PreadRange(run[0].file, run[0].offset, run[0].nbytes);
        if one.Err? {
          return Err(one.error);
        }
        SingleRun(out, one.value, run);
        return Ok(out[run[0].role := one.value]);
      }
      var start := run[0].offset;
      var total := run[|run| - 1].offset + run[|run| - 1].nbytes - start;
      var blob := PreadRange(run[0].file, start, total);
      if blob.Err? {
        return Err(blob.error);
      }
      var filled := out;
      assert run[0..] == run;
      for i := 0 to |run|
        invariant Deliver(out, blob.value, start, run) == Deliver(filled, blob.value, start, run[i..])
        invariant Now() == (Pread(files, old(Now()), run[0].file, start, total)).0
      {
        var begin := run[i].offset - start;
        DeliverStep(filled, blob.value, start, run[i..]);
        assert run[i..][0] == run[i] && run[i..][1..] == run[i + 1..];
        filled := filled[run[i].role := PySlice(blob.value, begin, begin + run[i].nbytes)];
      }
      DeliverStep(filled, blob.value, start, run[|run|..]);
      r := Ok(filled);
    }

    /** The inner loop of `read_bundle` over the spans of one file. */
    method ReadFile(out: map<string, Bytes>, spans: seq<Span>) returns (r: Result<map<string, Bytes>>)
      modifies this
      ensures Progress(Now(), r) == ReadRuns(files, old(Now()), out, Runs(spans))
    {
      hide Runs; hide ReadRuns; hide ReadRun;
      var filled, run: seq<Span> := out, [];
      ghost var all := ReadRuns(files, Now(), out, Runs(spans));
      assert [] + spans[0..] == spans;
      for i := 0 to |spans|
        invariant Chained(run) && (i > 0 ==> run != [])
        invariant all == ReadRuns(files, Now(), filled, Runs(run + spans[i..]))
      {
        assert spans[i..] == [spans[i]] + spans[i + 1..];
        if run != [] && Adjacent(run[|run| - 1], spans[i]) {
          assert run + spans[i..] == (run + [spans[i]]) + spans[i + 1..];
          run := run + [spans[i]];
        } else {
          if run != [] { RunEnds(run, spans[i..]); }
          ghost var before, filledBefore := Now(), filled;
          r := ReadAdjacentRun(filled, run);
          NextRun(files, before, filledBefore, run, Runs(spans[i..]), Runs(run + spans[i..]));
          if r.Err? {
            return;
          }
          filled, run := r.value, [spans[i]];
          assert run + spans[i + 1..] == spans[i..];
        }
      }
      assert run + spans[|spans|..] == run;
      if run != [] { ChainIsOneRun(run); }
      NoRuns(files, Now(), filled);
      NextRun(files, Now(), filled, run, [], Runs(run));
      r := ReadAdjacentRun(filled, run);
      if r.Ok? { NoRuns(files, Now(), r.value); }
    }

    method Load(bundle: Bundle) returns (r: Result<map<string, Bytes>>)
      modifies this
      ensures Progress(Now(), r) == ReadBundle(files, old(Now()), bundle)
    {
      hide Runs; hide Sort; hide ReadRuns; hide TotalLength; hide Slice; hide ReadRun;
      var spans := bundle.tensors;
      var order: seq<string>, byFile: map<string, seq<Span>>, seen: set<string> := [], map[], {};
      assert spans[0..] == spans;
      for i := 0 to |spans|
        invariant Now() == old(Now())
        invariant Validate(spans, {}) == Validate(spans[i..], seen)
        invariant order == FilesOf(spans[..i])
        invariant forall f :: f in byFile <==> f in order
        invariant forall f :: f in byFile ==> byFile[f] == SpansOf(spans[..i], f)
      {
        var span := spans[i];
        assert spans[i..][0] == span && spans[i..][1..] == spans[i + 1..];
        if span.role in seen {
          return Err(DuplicateRole(span.role));
        }
        seen := seen + {span.role};
        if span.offset < 0 || span.nbytes <= 0 {
          return Err(InvalidSpan(span.tensorName));
        }
        assert spans[..i + 1][..i] == spans[..i];
        if span.file !in byFile {
          NoSpansOf(spans[..i], span.file);
          order, byFile := order + [span.file], byFile[span.file := []];
        }
        byFile := byFile[span.file := byFile[span.file] + [span]];
      }
      assert spans[|spans|..] == [] && spans[..|spans|] == spans;

      var out: map<string, Bytes> := map[];
      ghost var all := ReadRuns(files, Now(), out, Plan(spans));
      assert order[0..] == order;
      for i := 0 to |order|
        invariant all == ReadRuns(files, Now(), out, PlanFor(order[i..], spans))
        invariant Validate(spans, {}).None?
      {
        assert order[i..][0] == order[i] && order[i..][1..] == order[i + 1..];
        var sorted := Sort(byFile[order[i]]);
        ReadRunsConcat(files, Now(), out, Runs(sorted), PlanFor(order[i + 1..], spans));
        r := ReadFile(out, sorted);
        if r.Err? {
          return;
        }
        out := r.value;
      }
      assert order[|order|..] == [];
      NoRuns(files, Now(), out);
      r := Ok(out);
      var length := SumLengths(out);
      if length != bundle.totalBytes {
        r := Err(IncorrectLength(bundle.key));
      }
    }
  }

  method SumLengths(out: map<string, Bytes>) returns (total: nat)
    ensures total == TotalLength(out)
  {
    var rest := out;
    total := 0;
    while rest != map[]
      invariant total + TotalLength(rest) == TotalLength(out)
      decreases |rest|
    {
      var k :| k in rest;
      TotalLengthWithout(rest, k);
      total := total + |rest[k]|;
      assert rest.Keys == (rest - {k}).Keys + {k};
      rest := rest - {k};
    }
  }

  lemma {:induction false} TotalLengthWithout(out: map<string, Bytes>, key: string)
    requires key in out
    ensures TotalLength(out) == |out[key]| + TotalLength(out - {key})
    decreases |out|
  {
    var k :| k in out && TotalLength(out) == |out[k]| + TotalLength(out - {k});
    if k != key {
      assert out.Keys == (out - {k}).Keys + {k} && out.Keys == (out - {key}).Keys + {key};
      TotalLengthWithout(out - {k}, key);
      TotalLengthWithout(out - {key}, k);
      assert out - {k} - {key} == out - {key} - {k};
    }
  }

  lemma {:induction false} NoSpansOf(spans: seq<Span>, file: string)
    requires file !in FilesOf(spans)
    ensures SpansOf(spans, file) == []
  {
    if spans != [] { NoSpansOf(spans[..|spans| - 1], file); }
  }

  lemma DeliverStep(out: map<string, Bytes>, blob: Bytes, start: int, run: seq<Span>)
    ensures Deliver(out, blob, start, run) ==
            if run == [] then out
            else Deliver(out[run[0].role := PySlice(blob, run[0].offset - start, run[0].offset - start + run[0].nbytes)],
                         blob, start, run[1..])
  {
  }

  lemma SingleRun(out: map<string, Bytes>, blob: Bytes, run: seq<Span>)
    requires |run| == 1 && |blob| == run[0].nbytes
    ensures Deliver(out, blob, run[0].offset, run) == out[run[0].role := blob]
  {
    var filled := out[run[0].role := PySlice(blob, 0, run[0].nbytes)];
    assert PySlice(blob, 0, run[0].nbytes) == blob;
    assert run[1..] == [] && Deliver(filled, blob, run[0].offset, []) == filled;
  }

  // ----- runs -----

  ghost predicate Chained(run: seq<Span>) {
    forall i, j :: 0 <= i && i + 1 == j < |run| ==> Adjacent(run[i], run[j])
  }

  lemma {:induction false} ChainIsOneRun(run: seq<Span>)
    requires run != [] && Chained(run)
    ensures Runs(run) == [run]
  {
    if |run| > 1 {
      assert Adjacent(run[0], run[1]);
      ChainIsOneRun(run[1..]);
      assert [run[0]] + run[1..] == run;
    } else {
      assert run == [run[0]];
    }
  }

  /** A run ends where the next span is not adjacent to its last one. */
  lemma {:induction false} RunEnds(run: seq<Span>, rest: seq<Span>)
    requires run != [] && Chained(run) && rest != [] && !Adjacent(run[|run| - 1], rest[0])
    ensures Runs(run + rest) == [run] + Runs(rest)
  {
    assert (run + rest)[1..] == run[1..] + rest;
    if |run| > 1 {
      assert Adjacent(run[0], run[1]);
      RunEnds(run[1..], rest);
      assert [run[0]] + run[1..] == run;
      assert ([run[1..]] + Runs(rest))[1..] == Runs(rest);
    } else {
      assert run[1..] + rest == rest && run == [run[0]];
    }
  }

  lemma NoRuns(files: Files, c: Counters, out: map<string, Bytes>)
    ensures Runs([]) == [] && ReadRuns(files, c, out, []) == Progress(c, Ok(out))
  {
  }

  lemma NextRun(files: Files, c: Counters, out: map<string, Bytes>, run: seq<Span>, rest: seq<seq<Span>>,
                all: seq<seq<Span>>)
    requires all == if run == [] then rest else [run] + rest
    ensures ReadRuns(files, c, out, all) ==
            (var p := ReadRun(files, c, out, run);
             if p.result.Err? then p else ReadRuns(files, p.counters, p.result.value, rest))
  {
    if run != [] { assert all[1..] == rest; }
  }

  lemma {:induction false} ReadRunsConcat(files: Files, c: Counters, out: map<string, Bytes>, a: seq<seq<Span>>,
                                          b: seq<seq<Span>>)
    ensures ReadRuns(files, c, out, a + b) ==
            (var p := ReadRuns(files, c, out, a);
             if p.result.Err? then p else ReadRuns(files, p.counters, p.result.value, b))
    decreases |a|
  {
    if a == [] {
      assert a + b == b;
    } else {
      assert (a + b)[0] == a[0] && (a + b)[1..] == a[1..] + b;
      var p := ReadRun(files, c, out, a[0]);
      if p.result.Ok? { ReadRunsConcat(files, p.counters, p.result.value, a[1..], b); }
    }
  }

  function Flatten(runs: seq<seq<Span>>): seq<Span> {
    if runs == [] then [] else runs[0] + Flatten(runs[1..])
  }

  ghost predicate AllChains(runs: seq<seq<Span>>) {
    forall i :: 0 <= i < |runs| ==> runs[i] != [] && Chained(runs[i])
  }

  /** No run could be joined with the next. */
  ghost predicate Separate(runs: seq<seq<Span>>)
    requires AllChains(runs)
  {
    forall i, j :: 0 <= i && i + 1 == j < |runs| ==> !Adjacent(runs[i][|runs[i]| - 1], runs[j][0])
  }

  lemma LongerRun(first: Span, run: seq<Span>, rest: seq<seq<Span>>)
    requires run != [] && AllChains([run] + rest) && Separate([run] + rest) && Adjacent(first, run[0])
    ensures AllChains([[first] + run] + rest) && Separate([[first] + run] + rest)
    ensures Flatten([[first] + run] + rest) == [first] + Flatten([run] + rest)
  {
    hide Adjacent;
    var before, longer := [run] + rest, [first] + run;
    var after := [longer] + rest;
    assert before[0] == run && before[1..] == rest && after[1..] == rest;
    assert Chained(longer) && longer[|run|] == run[|run| - 1];
    assert forall i :: 0 < i < |after| ==> after[i] == before[i];
    assert AllChains(after);
    assert longer + Flatten(rest) == [first] + (run + Flatten(rest));
  }

  lemma NewRun(first: Span, runs: seq<seq<Span>>)
    requires AllChains(runs) && Separate(runs) && (runs != [] ==> !Adjacent(first, runs[0][0]))
    ensures AllChains([[first]] + runs) && Separate([[first]] + runs)
    ensures Flatten([[first]] + runs) == [first] + Flatten(runs)
  {
    var after := [[first]] + runs;
    assert after[1..] == runs && after[0] == [first];
    assert forall i :: 0 < i < |after| ==> after[i] == runs[i - 1];
  }

  /** The runs of an ordered list rebuild it, are chains of adjacent spans, and are as long as
      possible. */
  lemma {:induction false} RunsAreMaximal(spans: seq<Span>)
    ensures Flatten(Runs(spans)) == spans && AllChains(Runs(spans)) && Separate(Runs(spans))
  {
    hide AllChains; hide Separate; hide Chained; hide Adjacent;
    if spans == [] {
      NoChains();
    } else {
      var first, rest := spans[0], Runs(spans[1..]);
      RunsAreMaximal(spans[1..]);
      if |spans| > 1 {
        assert [rest[0]] + rest[1..] == rest;
        FirstOfFlatten(rest);
        if Adjacent(first, spans[1]) { LongerRun(first, rest[0], rest[1..]); } else { NewRun(first, rest); }
      } else {
        assert rest == [];
        NewRun(first, rest);
      }
      assert [first] + spans[1..] == spans;
    }
  }

  lemma NoChains()
    ensures AllChains([]) && Separate([]) && Flatten([]) == []
  {
  }

  lemma FirstOfFlatten(runs: seq<seq<Span>>)
    requires runs != [] && runs[0] != []
    ensures Flatten(runs) != [] && Flatten(runs)[0] == runs[0][0]
  {
  }

  ghost predicate Ordered(spans: seq<Span>) {
    forall i, j :: 0 <= i < j < |spans| ==> spans[i].offset <= spans[j].offset
  }

  /** The spans at one offset, in order. */
  function AtOffset(spans: seq<Span>, offset: int): seq<Span> {
    if spans == [] then []
    else (if spans[0].offset == offset then [spans[0]] else []) + AtOffset(spans[1..], offset)
  }

  lemma {:induction false} InsertPermutes(s: Span, sorted: seq<Span>)
    ensures multiset(Insert(s, sorted)) == multiset(sorted) + multiset{s}
  {
    if !(sorted == [] || s.offset <= sorted[0].offset) {
      InsertPermutes(s, sorted[1..]);
      assert sorted == [sorted[0]] + sorted[1..];
    }
  }

  lemma OrderedCons(first: Span, rest: seq<Span>)
    ensures Ordered([first] + rest) <==> Ordered(rest) && forall s :: s in rest ==> first.offset <= s.offset
  {
    var all := [first] + rest;
    if Ordered(all) {
      forall s | s in rest ensures first.offset <= s.offset {
        var i :| 0 <= i < |rest| && rest[i] == s;
        assert all[0] == first && all[i + 1] == s;
      }
      forall i, j | 0 <= i < j < |rest| ensures rest[i].offset <= rest[j].offset {
        assert all[i + 1] == rest[i] && all[j + 1] == rest[j];
      }
    }
  }

  lemma {:induction false} InsertSorts(s: Span, sorted: seq<Span>)
    requires Ordered(sorted)
    ensures Ordered(Insert(s, sorted))
  {
    hide Ordered;
    if sorted == [] {
      OrderedCons(s, []);
      OrderedNone();
    } else {
      var first, rest := sorted[0], sorted[1..];
      assert sorted == [first] + rest;
      OrderedCons(first, rest);
      if s.offset <= first.offset {
        OrderedCons(s, sorted);
      } else {
        InsertSorts(s, rest);
        InsertPermutes(s, rest);
        OrderedCons(first, Insert(s, rest));
        forall t | t in Insert(s, rest) ensures t == s || t in rest {
          assert t in multiset(Insert(s, rest));
        }
      }
    }
  }

  lemma OrderedNone()
    ensures Ordered([])
  {
  }

  lemma AtOffsetStep(first: Span, rest: seq<Span>, offset: int)
    ensures AtOffset([first] + rest, offset) == (if first.offset == offset then [first] else []) + AtOffset(rest, offset)
  {
    assert ([first] + rest)[1..] == rest;
  }

  lemma OneIsEmpty(x: seq<Span>, y: seq<Span>, a: seq<Span>)
    requires x == [] || y == []
    ensures x + (y + a) == y + (x + a)
  {
    assert [] + a == a && [] + (x + a) == x + a && [] + (y + a) == y + a;
  }

  lemma {:induction false} InsertIsStable(s: Span, sorted: seq<Span>, offset: int)
    ensures AtOffset(Insert(s, sorted), offset) == AtOffset([s] + sorted, offset)
  {
    hide AtOffset;
    if !(sorted == [] || s.offset <= sorted[0].offset) {
      var first, rest := sorted[0], sorted[1..];
      InsertIsStable(s, rest, offset);
      AtOffsetStep(first, Insert(s, rest), offset);
      AtOffsetStep(s, rest, offset);
      AtOffsetStep(s, sorted, offset);
      assert sorted == [first] + rest;
      AtOffsetStep(first, rest, offset);
      OneIsEmpty(if first.offset == offset then [first] else [], if s.offset == offset then [s] else [], AtOffset(rest, offset));
    }
  }

  /** Sorting permutes, orders by offset, and keeps the given order at equal offsets. */
  lemma {:induction false} SortIsStable(spans: seq<Span>)
    ensures Ordered(Sort(spans)) && multiset(Sort(spans)) == multiset(spans)
    ensures forall offset :: AtOffset(Sort(spans), offset) == AtOffset(spans, offset)
  {
    if spans == [] {
      OrderedNone();
    } else {
      hide AtOffset; hide Insert; hide Ordered;
      var first, rest := spans[0], spans[1..];
      SortIsStable(rest);
      InsertSorts(first, Sort(rest));
      InsertPermutes(first, Sort(rest));
      assert spans == [first] + rest;
      forall offset ensures AtOffset(Sort(spans), offset) == AtOffset(spans, offset) {
        InsertIsStable(first, Sort(rest), offset);
        AtOffsetStep(first, Sort(rest), offset);
        AtOffsetStep(first, rest, offset);
      }
    }
  }

  // ----- the plan reads every span once -----

  /** A run that one device read can serve. */
  ghost predicate Proper(run: seq<Span>) {
    run != [] && Chained(run) && forall s :: s in run ==> ValidSpan(s) && s.file == run[0].file
  }

  lemma {:induction false} SpansOfCount(spans: seq<Span>, file: string, s: Span)
    ensures multiset(SpansOf(spans, file))[s] == (if s.file == file then multiset(spans)[s] else 0)
  {
    if spans != [] {
      SpansOfCount(spans[..|spans| - 1], file, s);
      assert spans == spans[..|spans| - 1] + [spans[|spans| - 1]];
    }
  }

  ghost predicate DistinctFiles(files: seq<string>) {
    forall i, j :: 0 <= i < j < |files| ==> files[i] != files[j]
  }

  lemma {:induction false} FilesOfIs(spans: seq<Span>)
    ensures DistinctFiles(FilesOf(spans)) && forall s :: s in spans ==> s.file in FilesOf(spans)
  {
    if spans != [] {
      FilesOfIs(spans[..|spans| - 1]);
      assert spans == spans[..|spans| - 1] + [spans[|spans| - 1]];
    }
  }

  lemma {:induction false} FlattenConcat(a: seq<seq<Span>>, b: seq<seq<Span>>)
    ensures Flatten(a + b) == Flatten(a) + Flatten(b)
  {
    if a == [] {
      assert a + b == b;
    } else {
      assert (a + b)[1..] == a[1..] + b;
      FlattenConcat(a[1..], b);
    }
  }

  lemma {:induction false} PlanForCount(files: seq<string>, spans: seq<Span>, s: Span)
    requires DistinctFiles(files)
    ensures multiset(Flatten(PlanFor(files, spans)))[s] == (if s.file in files then multiset(spans)[s] else 0)
  {
    hide Sort; hide Runs; hide SpansOf; hide Separate; hide AllChains; hide Ordered; hide AtOffset;
    if files != [] {
      var first, rest := Runs(Sort(SpansOf(spans, files[0]))), PlanFor(files[1..], spans);
      FlattenConcat(first, rest);
      RunsAreMaximal(Sort(SpansOf(spans, files[0])));
      SortIsStable(SpansOf(spans, files[0]));
      SpansOfCount(spans, files[0], s);
      PlanForCount(files[1..], spans, s);
      assert files == [files[0]] + files[1..];
      assert s.file == files[0] ==> s.file !in files[1..];
      assert multiset(Flatten(first) + Flatten(rest))[s] == multiset(Flatten(first))[s] + multiset(Flatten(rest))[s];
    }
  }

  lemma InMultiset(spans: seq<Span>, s: Span)
    ensures s in spans <==> multiset(spans)[s] > 0
  {
  }

  lemma RunsOfOneFile(spans: seq<Span>, file: string, run: seq<Span>)
    requires forall s :: s in spans ==> ValidSpan(s)
    requires run in Runs(Sort(SpansOf(spans, file)))
    ensures Proper(run)
  {
    hide Sort; hide Runs; hide SpansOf; hide Adjacent; hide ValidSpan;
    var sorted := Sort(SpansOf(spans, file));
    RunsAreMaximal(sorted);
    forall s | s in run ensures ValidSpan(s) && s.file == file {
      InFlatten(Runs(sorted), run, s);
      SortIsStable(SpansOf(spans, file));
      InMultiset(sorted, s);
      SpansOfCount(spans, file, s);
      InMultiset(spans, s);
    }
  }

  lemma {:induction false} InFlatten(runs: seq<seq<Span>>, run: seq<Span>, s: Span)
    requires run in runs && s in run
    ensures s in Flatten(runs)
  {
    if runs[0] != run { InFlatten(runs[1..], run, s); }
  }

  lemma {:induction false} PlanForIsProper(files: seq<string>, spans: seq<Span>)
    requires forall s :: s in spans ==> ValidSpan(s)
    ensures forall run :: run in PlanFor(files, spans) ==> Proper(run)
  {
    hide Proper; hide Runs; hide Sort; hide ValidSpan;
    if files != [] {
      forall run | run in Runs(Sort(SpansOf(spans, files[0]))) ensures Proper(run) {
        RunsOfOneFile(spans, files[0], run);
      }
      PlanForIsProper(files[1..], spans);
    }
  }

  /** The plan reads each span of the bundle exactly once, in runs one read can serve. */
  lemma PlanCoversBundle(spans: seq<Span>)
    requires forall s :: s in spans ==> ValidSpan(s)
    ensures multiset(Flatten(Plan(spans))) == multiset(spans)
    ensures forall run :: run in Plan(spans) ==> Proper(run)
  {
    hide PlanFor; hide FilesOf; hide Proper; hide ValidSpan;
    FilesOfIs(spans);
    PlanForIsProper(FilesOf(spans), spans);
    forall s ensures multiset(Flatten(Plan(spans)))[s] == multiset(spans)[s] {
      PlanForCount(FilesOf(spans), spans, s);
      InMultiset(spans, s);
    }
  }

  // ----- merged reads deliver the slices -----

  /** Each span stored under its role, one after the other. */
  function Store(files: Files, out: map<string, Bytes>, spans: seq<Span>): map<string, Bytes>
    requires forall s :: s in spans ==> InFile(files, s)
    decreases |spans|
  {
    if spans == [] then out else Store(files, out[spans[0].role := Slice(files, spans[0])], spans[1..])
  }

  lemma ChainStep(run: seq<Span>)
    requires Proper(run) && |run| > 1
    ensures ValidSpan(run[0]) && Adjacent(run[0], run[1]) && run[1..] != [] && Proper(run[1..])
    ensures run == [run[0]] + run[1..] && run[1..][|run| - 2] == run[|run| - 1]
  {
    assert forall i :: 0 <= i < |run| - 1 ==> run[1..][i] == run[i + 1];
  }

  lemma {:induction false} ChainEnds(run: seq<Span>)
    requires Proper(run)
    ensures run != [] && ValidSpan(run[|run| - 1])
    ensures var end := run[|run| - 1].offset + run[|run| - 1].nbytes;
            && SumBytes(run) == end - run[0].offset
            && forall s :: s in run ==> run[0].offset <= s.offset && s.offset + s.nbytes <= end
  {
    if |run| == 1 {
      assert run == [run[0]] && run[1..] == [];
    } else {
      ChainStep(run);
      hide Proper;
      ChainEnds(run[1..]);
    }
  }

  lemma {:induction false} DeliverIsStore(files: Files, out: map<string, Bytes>, blob: Bytes, file: string,
                                          start: nat, run: seq<Span>)
    requires file in files && start + |blob| <= |files[file]| && blob == files[file][start..start + |blob|]
    requires forall s :: s in run ==> ValidSpan(s) && s.file == file && start <= s.offset && s.offset + s.nbytes <= start + |blob|
    ensures AllInFile(files, run)
    ensures Deliver(out, blob, start, run) == Store(files, out, run)
    decreases |run|
  {
    assert forall s :: s in run ==> InFile(files, s);
    if run != [] {
      var s := run[0];
      var begin := s.offset - start;
      assert PySlice(blob, begin, begin + s.nbytes) == Slice(files, s);
      DeliverIsStore(files, out[s.role := Slice(files, s)], blob, file, start, run[1..]);
    }
  }

  lemma ReadRunIsStore(files: Files, c: Counters, out: map<string, Bytes>, run: seq<Span>)
    requires Proper(run)
    ensures var p := ReadRun(files, c, out, run);
            && (p.result.Ok? <==> AllInFile(files, run))
            && (p.result.Ok? ==> p.result.value == Store(files, out, run) &&
                                 p.counters.bytesRead == c.bytesRead + SumBytes(run) &&
                                 p.counters.readCount == c.readCount + 1)
  {
    hide Deliver; hide Store; hide SumBytes; hide Chained;
    ChainEnds(run);
    var first, last, file := run[0], run[|run| - 1], run[0].file;
    var total := last.offset + last.nbytes - first.offset;
    assert ValidSpan(first) && ValidSpan(last) && first.offset + first.nbytes <= first.offset + total;
    if AllInFile(files, run) {
      assert InFile(files, last);
    }
    if file in files && first.offset + total <= |files[file]| {
      DeliverIsStore(files, out, files[file][first.offset..first.offset + total], file, first.offset, run);
    }
  }

  lemma {:induction false} StoreConcat(files: Files, out: map<string, Bytes>, a: seq<Span>, b: seq<Span>)
    requires AllInFile(files, a) && AllInFile(files, b)
    ensures AllInFile(files, a + b) && Store(files, out, a + b) == Store(files, Store(files, out, a), b)
    decreases |a|
  {
    assert AllInFile(files, a + b);
    if a == [] {
      assert a + b == b;
    } else {
      assert (a + b)[1..] == a[1..] + b;
      StoreConcat(files, out[a[0].role := Slice(files, a[0])], a[1..], b);
    }
  }

  lemma {:induction false} SumBytesConcat(a: seq<Span>, b: seq<Span>)
    ensures SumBytes(a + b) == SumBytes(a) + SumBytes(b)
  {
    if a == [] {
      assert a + b == b;
    } else {
      assert (a + b)[1..] == a[1..] + b;
      SumBytesConcat(a[1..], b);
    }
  }

  lemma {:induction false} ReadRunsIsStore(files: Files, c: Counters, out: map<string, Bytes>, runs: seq<seq<Span>>)
    requires forall run :: run in runs ==> Proper(run)
    ensures var p := ReadRuns(files, c, out, runs);
            && (p.result.Ok? <==> AllInFile(files, Flatten(runs)))
            && (p.result.Ok? ==> p.result.value == Store(files, out, Flatten(runs)) &&
                                 p.counters.bytesRead == c.bytesRead + SumBytes(Flatten(runs)) &&
                                 p.counters.readCount == c.readCount + |runs|)
    decreases |runs|
  {
    hide ReadRun; hide Proper; hide Store; hide SumBytes; hide InFile;
    if runs == [] {
      EmptyStore(files, out);
    } else {
      var run, rest := runs[0], Flatten(runs[1..]);
      ReadRunIsStore(files, c, out, run);
      var p := ReadRun(files, c, out, run);
      assert AllInFile(files, run + rest) <==> AllInFile(files, run) && AllInFile(files, rest);
      if p.result.Ok? {
        ReadRunsIsStore(files, p.counters, p.result.value, runs[1..]);
        SumBytesConcat(run, rest);
        if AllInFile(files, rest) { StoreConcat(files, out, run, rest); }
      }
    }
  }

  lemma EmptyStore(files: Files, out: map<string, Bytes>)
    ensures Store(files, out, []) == out && SumBytes([]) == 0
  {
  }

  // ----- roles -----

  lemma {:induction false} ValidateIs(spans: seq<Span>, seen: set<string>)
    ensures Validate(spans, seen).None? <==>
            && (forall s :: s in spans ==> ValidSpan(s) && s.role !in seen)
            && UniqueRoles(multiset(spans))
    decreases |spans|
  {
    hide UniqueRoles;
    if spans == [] {
      NoRoles();
    } else {
      var first, rest := spans[0], spans[1..];
      assert spans == [first] + rest;
      UniqueCons(first, rest);
      if first.role !in seen && ValidSpan(first) { ValidateIs(rest, seen + {first.role}); }
    }
  }

  lemma NoRoles()
    ensures UniqueRoles(multiset([]))
  {
  }

  lemma UniqueCons(first: Span, rest: seq<Span>)
    ensures UniqueRoles(multiset([first] + rest)) <==>
            UniqueRoles(multiset(rest)) && forall s :: s in rest ==> s.role != first.role
  {
    var all, others := multiset([first] + rest), multiset(rest);
    assert all == others + multiset{first};
    assert first in all;
    if UniqueRoles(all) {
      forall s | s in rest ensures s.role != first.role {
        assert s in all && s in others;
      }
      forall s, t | s in others && t in others && s.role == t.role ensures s == t && others[s] == 1 {
        assert s in all && t in all;
      }
    }
  }

  /** What storing spans with fresh distinct roles leaves behind. */
  lemma {:induction false} StoreIs(files: Files, out: map<string, Bytes>, spans: seq<Span>)
    requires AllInFile(files, spans) && UniqueRoles(multiset(spans))
    requires forall s :: s in spans ==> s.role !in out
    ensures var r := Store(files, out, spans);
            && (forall role :: role in r <==> role in out || exists s :: s in spans && s.role == role)
            && (forall role :: role in out ==> role in r && r[role] == out[role])
            && (forall s :: s in spans ==> s.role in r && r[s.role] == Slice(files, s))
            && TotalLength(r) == TotalLength(out) + SumBytes(spans)
    decreases |spans|
  {
    hide UniqueRoles;
    if spans != [] {
      var first, rest := spans[0], spans[1..];
      assert spans == [first] + rest;
      UniqueCons(first, rest);
      var next := out[first.role := Slice(files, first)];
      TotalLengthWithout(next, first.role);
      assert next - {first.role} == out;
      StoreIs(files, next, rest);
    }
  }

  function Remove(spans: seq<Span>, i: nat): seq<Span>
    requires i < |spans|
  {
    spans[..i] + spans[i + 1..]
  }

  lemma {:induction false} SumBytesRemove(spans: seq<Span>, i: nat)
    requires i < |spans|
    ensures SumBytes(spans) == spans[i].nbytes + SumBytes(Remove(spans, i))
    ensures multiset(Remove(spans, i)) == multiset(spans) - multiset{spans[i]}
  {
    var before, after := spans[..i], spans[i + 1..];
    assert spans == before + ([spans[i]] + after);
    SumBytesConcat(before, [spans[i]] + after);
    SumBytesConcat(before, after);
    assert ([spans[i]] + after)[1..] == after;
  }

  lemma {:induction false} SumBytesPermutation(a: seq<Span>, b: seq<Span>)
    requires multiset(a) == multiset(b)
    ensures SumBytes(a) == SumBytes(b)
    decreases |a|
  {
    hide SumBytes; hide Remove;
    SameMembers(a, b);
    if a == [] {
      assert |multiset(b)| == |multiset(a)| == 0;
    } else {
      assert a[0] in b;
      var i :| 0 <= i < |b| && b[i] == a[0];
      SumBytesRemove(a, 0);
      SumBytesRemove(b, i);
      assert |Remove(a, 0)| < |a| by { RemoveLength(a, 0); }
      SumBytesPermutation(Remove(a, 0), Remove(b, i));
    }
  }

  lemma RemoveLength(spans: seq<Span>, i: nat)
    requires i < |spans|
    ensures |Remove(spans, i)| == |spans| - 1
  {
  }

  /** A bundle is read successfully exactly when its roles are distinct, its ranges lie in
      their files and its sizes add up; then each role maps to exactly its own slice, the
      bytes read are the bundle's total, and there is one device read per maximal run of
      adjacent spans. A bundle with a bad role or range fails before any read. */
  lemma CoalescedReadsAreExact(files: Files, c: Counters, bundle: Bundle)
    ensures var p, spans := ReadBundle(files, c, bundle), bundle.tensors;
            && (p.result.Ok? <==> UniqueRoles(multiset(spans)) && AllInFile(files, spans) && SumBytes(spans) == bundle.totalBytes)
            && (p.result.Ok? ==> IsSlices(files, spans, p.result.value) &&
                                 p.counters.bytesRead == c.bytesRead + bundle.totalBytes &&
                                 p.counters.readCount == c.readCount + |Plan(spans)|)
            && (!UniqueRoles(multiset(spans)) || (exists s :: s in spans && !ValidSpan(s)) ==> p.counters == c)
  {
    hide UniqueRoles; hide Plan; hide ReadRuns; hide Store; hide SumBytes; hide Validate; hide Flatten; hide Proper;
    hide TotalLength;
    var spans := bundle.tensors;
    ValidateIs(spans, {});
    if Validate(spans, {}).None? {
      var read := Flatten(Plan(spans));
      PlanCoversBundle(spans);
      ReadRunsIsStore(files, c, map[], Plan(spans));
      SumBytesPermutation(read, spans);
      SameMembers(read, spans);
      if AllInFile(files, spans) {
        StoreIs(files, map[], read);
        EmptyLength();
      }
    }
  }

  lemma {:induction false} ValidateFails(spans: seq<Span>, seen: set<string>, i: nat)
    requires i < |spans| && forall j :: 0 <= j < i ==> ValidSpan(spans[j]) && spans[j].role !in seen
    requires forall j, k :: 0 <= j < k < i ==> spans[j].role != spans[k].role
    ensures var repeated := spans[i].role in seen || exists j :: 0 <= j < i && spans[j].role == spans[i].role;
            && (repeated ==> Validate(spans, seen) == Some(DuplicateRole(spans[i].role)))
            && (!repeated && (spans[i].offset < 0 || spans[i].nbytes <= 0) ==>
                  Validate(spans, seen) == Some(InvalidSpan(spans[i].tensorName)))
    decreases |spans|
  {
    if i > 0 {
      var rest := spans[1..];
      assert forall j :: 0 <= j < i ==> spans[j] == if j == 0 then spans[0] else rest[j - 1];
      ValidateFails(rest, seen + {spans[0].role}, i - 1);
      assert (exists j :: 0 <= j < i && spans[j].role == spans[i].role) <==>
             spans[0].role == spans[i].role || exists j :: 0 <= j < i - 1 && rest[j].role == rest[i - 1].role by {
        if j :| 0 <= j < i - 1 && rest[j].role == rest[i - 1].role { assert spans[j + 1].role == spans[i].role; }
      }
    }
  }

  /** Which error a bundle fails with: the first span whose role is repeated or whose range is
      invalid names it, before any read; then a range that no file has; and a wrong total only
      when everything was read. */
  lemma ReadErrorsAre(files: Files, c: Counters, bundle: Bundle, i: nat)
    requires i <= |bundle.tensors| && forall j :: 0 <= j < i ==> ValidSpan(bundle.tensors[j])
    requires forall j, k :: 0 <= j < k < i ==> bundle.tensors[j].role != bundle.tensors[k].role
    ensures i < |bundle.tensors| ==>
              var s := bundle.tensors[i];
              var repeated := exists j :: 0 <= j < i && bundle.tensors[j].role == s.role;
              && (repeated ==> ReadBundle(files, c, bundle) == Progress(c, Err(DuplicateRole(s.role))))
              && (!repeated && (s.offset < 0 || s.nbytes <= 0) ==>
                    ReadBundle(files, c, bundle) == Progress(c, Err(InvalidSpan(s.tensorName))))
    ensures i == |bundle.tensors| ==>
              var p := ReadBundle(files, c, bundle);
              && (AllInFile(files, bundle.tensors) && SumBytes(bundle.tensors) != bundle.totalBytes ==>
                    p.result == Err(IncorrectLength(bundle.key)) &&
                    p.counters.bytesRead == c.bytesRead + SumBytes(bundle.tensors))
              && (!AllInFile(files, bundle.tensors) ==>
                    p.result.Err? && (p.result.error.Unavailable? || p.result.error.OutOfRange?))
  {
    hide UniqueRoles; hide Plan; hide ReadRuns; hide Store; hide SumBytes; hide Validate; hide Flatten; hide Proper;
    hide TotalLength; hide AllInFile;
    var spans := bundle.tensors;
    if i < |spans| {
      ValidateFails(spans, {}, i);
    } else {
      DistinctRolesAreUnique(spans);
      ValidateIs(spans, {});
      var read := Flatten(Plan(spans));
      PlanCoversBundle(spans);
      ReadRunsIsStore(files, c, map[], Plan(spans));
      ReadRunsFailByFile(files, c, map[], Plan(spans));
      SumBytesPermutation(read, spans);
      assert AllInFile(files, read) <==> AllInFile(files, spans) by { SameInFile(files, read, spans); }
      if AllInFile(files, spans) {
        assert UniqueRoles(multiset(read));
        StoreIs(files, map[], read);
        EmptyLength();
      }
    }
  }

  lemma SameInFile(files: Files, a: seq<Span>, b: seq<Span>)
    requires multiset(a) == multiset(b)
    ensures AllInFile(files, a) <==> AllInFile(files, b)
  {
    SameMembers(a, b);
  }

  lemma {:induction false} DistinctRolesAreUnique(spans: seq<Span>)
    requires forall j, k :: 0 <= j < k < |spans| ==> spans[j].role != spans[k].role
    ensures UniqueRoles(multiset(spans))
  {
    hide UniqueRoles;
    if spans == [] {
      NoRoles();
    } else {
      var first, rest := spans[0], spans[1..];
      assert spans == [first] + rest && forall j :: 0 < j < |spans| ==> spans[j] == rest[j - 1];
      DistinctRolesAreUnique(rest);
      forall s | s in rest ensures s.role != first.role {
        var j :| 0 <= j < |rest| && rest[j] == s;
        assert spans[j + 1] == s;
      }
      UniqueCons(first, rest);
    }
  }

  /** A device read fails only for its file or its range. */
  lemma {:induction false} ReadRunsFailByFile(files: Files, c: Counters, out: map<string, Bytes>, runs: seq<seq<Span>>)
    ensures var p := ReadRuns(files, c, out, runs);
            p.result.Err? ==> p.result.error.Unavailable? || p.result.error.OutOfRange?
    decreases |runs|
  {
    if runs != [] {
      var p := ReadRun(files, c, out, runs[0]);
      if p.result.Ok? { ReadRunsFailByFile(files, p.counters, p.result.value, runs[1..]); }
    }
  }

  lemma SameMembers(a: seq<Span>, b: seq<Span>)
    requires multiset(a) == multiset(b)
    ensures forall s :: s in a <==> s in b
  {
    forall s ensures s in a <==> s in b {
      assert s in a <==> s in multiset(a);
      assert s in b <==> s in multiset(b);
    }
  }

  lemma EmptyLength()
    ensures TotalLength(map[]) == 0
  {
  }

  /** A bundle whose spans lie back to back in one file costs exactly one device read. */
  lemma ContiguousIsOneRead(spans: seq<Span>)
    requires Proper(spans)
    ensures Plan(spans) == [spans]
  {
    OneFile(spans, spans[0].file);
    SortedStays(spans);
    ChainIsOneRun(spans);
    assert FilesOf(spans)[1..] == [] && [spans] + PlanFor([], spans) == [spans];
  }

  lemma {:induction false} OneFile(spans: seq<Span>, file: string)
    requires spans != [] && forall s :: s in spans ==> s.file == file
    ensures FilesOf(spans) == [file] && SpansOf(spans, file) == spans
  {
    var before := spans[..|spans| - 1];
    assert spans == before + [spans[|spans| - 1]] && spans[|spans| - 1].file == file;
    if before != [] {
      OneFile(before, file);
    } else {
      assert FilesOf(before) == [] && SpansOf(before, file) == [];
    }
  }

  lemma {:induction false} SortedStays(spans: seq<Span>)
    requires Proper(spans)
    ensures Sort(spans) == spans
  {
    if |spans| == 1 {
      assert spans == [spans[0]] && spans[1..] == [] && Sort(spans[1..]) == [];
    } else {
      ChainStep(spans);
      hide Proper;
      SortedStays(spans[1..]);
    }
  }
}
