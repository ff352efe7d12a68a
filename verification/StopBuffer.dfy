/** Stop sequences over a streamed completion. The buffer sees the text in chunks;
    its output is compared with the text as a whole. */
module StopBuffer {
  import opened Markers

  datatype StopState = StopState(buffer: string, stopped: bool)
  datatype Fed = Fed(state: StopState, emitted: string)

  const START := StopState("", false)

  function Feed(stops: seq<string>, st: StopState, text: string): Fed {
    if st.stopped || text == "" then Fed(st, "")
    else
      var buffer := st.buffer + text;
      match FirstMatch(buffer, stops)
      case Match(index, _) => Fed(StopState("", true), buffer[..index])
      case NoMatch =>
        var kept := |buffer| - Retained(buffer, stops);
        Fed(StopState(buffer[kept..], false), buffer[..kept])
  }

  function Flush(st: StopState): Fed {
    if st.stopped then Fed(st, "") else Fed(st.(buffer := ""), st.buffer)
  }

  /** The mutable buffer; its methods are tied to `Feed` and `Flush` above. */
  class StopSequenceBuffer {
    const stops: seq<string>
    var buffer: string
    var stopped: bool

    function State(): StopState
      reads this
    {
      StopState(buffer, stopped)
    }

    constructor (stops: seq<string>)
      ensures this.stops == stops && State() == START
    {
      this.stops := stops;
      buffer, stopped := "", false;
    }

    method FeedText(text: string) returns (emitted: string)
      modifies this
      ensures Fed(State(), emitted) == Feed(stops, old(State()), text)
    {
      if stopped || text == "" {
        return "";
      }
      buffer := buffer + text;
      var found := FirstMatch(buffer, stops);
      if found.Match? {
        emitted := buffer[..found.index];
        buffer := "";
        stopped := true;
        return;
      }
      var retained := Retained(buffer, stops);
      if retained > 0 {
        emitted := buffer[..|buffer| - retained];
        buffer := buffer[|buffer| - retained..];
        return;
      }
      emitted := buffer;
      buffer := "";
    }

    method FlushText() returns (emitted: string)
      modifies this
      ensures Fed(State(), emitted) == Flush(old(State()))
    {
      if stopped {
        return "";
      }
      emitted := buffer;
      buffer := "";
    }
  }

  // ----- whole runs -----

  /** Everything the buffer emits for `chunks` followed by a flush. */
  function Run(stops: seq<string>, st: StopState, chunks: seq<string>): string
    decreases |chunks|
  {
    if chunks == [] then Flush(st).emitted
    else
      var fed := Feed(stops, st, chunks[0]);
      fed.emitted + Run(stops, fed.state, chunks[1..])
  }

  function Output(stops: seq<string>, chunks: seq<string>): string {
    Run(stops, START, chunks)
  }

  /** Reference: grow the text chunk by chunk; the first time it contains a stop,
      cut the text received so far at its earliest stop. */
  function CutWhenSeen(stops: seq<string>, seen: string, chunks: seq<string>): string
    decreases |chunks|
  {
    if chunks == [] then seen
    else
      var grown := seen + chunks[0];
      match FirstMatch(grown, stops)
      case Match(index, _) => grown[..index]
      case NoMatch => CutWhenSeen(stops, grown, chunks[1..])
  }

  /** The buffer after `seen`, while no stop has been completed, and what was emitted by then. */
  function Waiting(stops: seq<string>, seen: string): StopState {
    StopState(seen[|seen| - Retained(seen, stops)..], false)
  }

  function EmittedBy(stops: seq<string>, seen: string): string {
    seen[..|seen| - Retained(seen, stops)]
  }

  /** One feed of a waiting buffer decides exactly as if it searched all text so far. */
  lemma FeedDecidesOnWholeText(stops: seq<string>, seen: string, chunk: string)
    requires FirstMatch(seen, stops).NoMatch?
    ensures var fed := Feed(stops, Waiting(stops, seen), chunk);
            match FirstMatch(seen + chunk, stops)
            case Match(index, _) =>
              fed.state.stopped && EmittedBy(stops, seen) + fed.emitted == (seen + chunk)[..index]
            case NoMatch =>
              fed.state == Waiting(stops, seen + chunk) &&
              EmittedBy(stops, seen) + fed.emitted == EmittedBy(stops, seen + chunk)
  {
    hide FirstMatch; hide Retained; hide At; hide PartialAt; hide Occurs; hide Pending;
    var cut := |seen| - Retained(seen, stops);
    var out, buffer := EmittedBy(stops, seen), seen[cut..] + chunk;
    assert seen + chunk == out + buffer;
    if chunk == "" {
      assert seen + chunk == seen && out + "" == out;
    } else {
      RetainedDecidesMatch(seen, chunk, stops);
      SplitAppended(out, buffer, if FirstMatch(buffer, stops).Match? then FirstMatch(buffer, stops).index
                                 else |buffer| - Retained(buffer, stops));
    }
  }

  lemma {:induction false} StoppedEmitsNothing(stops: seq<string>, st: StopState, chunks: seq<string>)
    requires st.stopped
    ensures Run(stops, st, chunks) == ""
    decreases |chunks|
  {
    if chunks != [] {
      StoppedEmitsNothing(stops, st, chunks[1..]);
    }
  }

  lemma AppendAssociates(a: string, b: string, c: string)
    ensures a + (b + c) == (a + b) + c && a + "" == a && "" + a == a
  {
  }

  lemma {:induction false} RunCutsWhenSeen(stops: seq<string>, seen: string, chunks: seq<string>)
    requires FirstMatch(seen, stops).NoMatch?
    ensures EmittedBy(stops, seen) + Run(stops, Waiting(stops, seen), chunks) == CutWhenSeen(stops, seen, chunks)
    decreases |chunks|
  {
    hide FirstMatch; hide Retained; hide Occurs; hide At; hide Feed;
    if chunks != [] {
      hide EmittedBy; hide Waiting;
      var fed := Feed(stops, Waiting(stops, seen), chunks[0]);
      FeedDecidesOnWholeText(stops, seen, chunks[0]);
      AppendAssociates(EmittedBy(stops, seen), fed.emitted, Run(stops, fed.state, chunks[1..]));
      if FirstMatch(seen + chunks[0], stops).Match? {
        StoppedEmitsNothing(stops, fed.state, chunks[1..]);
        AppendAssociates(EmittedBy(stops, seen) + fed.emitted, "", "");
      } else {
        RunCutsWhenSeen(stops, seen + chunks[0], chunks[1..]);
      }
    }
  }

  lemma NothingInEmptyText(stops: seq<string>)
    requires NonEmpty(stops)
    ensures FirstMatch("", stops).NoMatch? && Waiting(stops, "") == START && EmittedBy(stops, "") == ""
  {
    hide FirstMatch; hide Retained;
  }

  lemma OutputCutsWhenSeen(stops: seq<string>, chunks: seq<string>)
    requires NonEmpty(stops)
    ensures Output(stops, chunks) == CutWhenSeen(stops, "", chunks)
  {
    hide FirstMatch; hide Waiting; hide EmittedBy; hide Run; hide CutWhenSeen; hide NonEmpty;
    NothingInEmptyText(stops);
    RunCutsWhenSeen(stops, "", chunks);
    AppendAssociates(Run(stops, START, chunks), "", "");
  }

  // ----- what every chunking promises -----

  /** Cutting at the earliest stop leaves a prefix without any stop, ending where a stop begins. */
  lemma CutIsSafe(stops: seq<string>, seen: string, rest: string)
    requires NonEmpty(stops) && FirstMatch(seen, stops).Match?
    ensures var index := FirstMatch(seen, stops).index;
            !Contains(seen[..index], stops) && Occurs(seen + rest, stops, index)
  {
    hide FirstMatch; hide At;
    var Match(index, which) := FirstMatch(seen, stops);
    AtFits(seen, index, stops[which]);
    AtExtends(seen, rest, index, stops[which]);
    var cut := seen[..index];
    assert seen == cut + seen[index..];
    forall i ensures !Occurs(cut, stops, i) {
      if Occurs(cut, stops, i) {
        OccursExtends(cut, seen[index..], stops, i);
        assert false;
      }
    }
  }

  /** For any stops and any chunking: the output is a prefix of the text, contains no
      stop, and is the whole text exactly when the text has no stop; a shorter output
      ends where a stop begins. */
  lemma {:induction false} OutputIsSafe(stops: seq<string>, seen: string, chunks: seq<string>)
    requires NonEmpty(stops) && FirstMatch(seen, stops).NoMatch?
    ensures var out, text := CutWhenSeen(stops, seen, chunks), seen + Concat(chunks);
            out <= text && !Contains(out, stops) &&
            (out == text <==> !Contains(text, stops)) &&
            (out != text ==> Occurs(text, stops, |out|))
    decreases |chunks|
  {
    hide FirstMatch; hide Occurs;
    if chunks == [] {
      assert seen + Concat(chunks) == seen;
    } else {
      var grown := seen + chunks[0];
      assert seen + Concat(chunks) == grown + Concat(chunks[1..]);
      if FirstMatch(grown, stops).Match? {
        CutIsSafe(stops, grown, Concat(chunks[1..]));
      } else {
        OutputIsSafe(stops, grown, chunks[1..]);
      }
    }
  }

  /** `OutputIsSafe` for the buffer itself. */
  lemma StreamedOutputIsSafe(stops: seq<string>, chunks: seq<string>)
    requires NonEmpty(stops)
    ensures var out, text := Output(stops, chunks), Concat(chunks);
            out <= text && !Contains(out, stops) &&
            (out == text <==> !Contains(text, stops)) &&
            (out != text ==> Occurs(text, stops, |out|))
  {
    hide FirstMatch; hide Occurs; hide Output; hide CutWhenSeen;
    NothingInEmptyText(stops);
    OutputCutsWhenSeen(stops, chunks);
    OutputIsSafe(stops, "", chunks);
    assert "" + Concat(chunks) == Concat(chunks);
  }

  // ----- when the chunking cannot matter -----

  /** The text cut at its earliest stop, with no regard to chunks. */
  function Truncate(stops: seq<string>, text: string): string {
    match FirstMatch(text, stops)
    case Match(index, _) => text[..index]
    case NoMatch => text
  }

  ghost predicate ChunkInvariant(stops: seq<string>) {
    forall c: seq<string>, d: seq<string> ::
      Concat(c) == Concat(d) ==> Output(stops, c) == Output(stops, d)
  }

  /** If a stop is complete before the last character of another stop, then some stop
      is complete there that starts at its head. */
  predicate HeadFirst(stops: seq<string>) {
    forall k :: 0 <= k < |stops| && stops[k] != "" ==>
      var early := FirstMatch(stops[k][..|stops[k]| - 1], stops);
      early.Match? ==> early.index == 0
  }

  lemma {:induction false} NoEarlierStop(stops: seq<string>, text: string, more: string, e: nat, k: nat)
    requires NonEmpty(stops) && HeadFirst(stops) && k < |stops|
    requires FirstMatch(text, stops).Match? && e < FirstMatch(text, stops).index
    ensures !At(text + more, e, stops[k])
    decreases |stops[k]|
  {
    hide FirstMatch; hide At; hide Occurs;
    var s := stops[k];
    if At(text + more, e, s) {
      var Match(i, w) := FirstMatch(text, stops);
      AtFits(text, i, stops[w]);
      if e + |s| <= |text| {
        AtExtends(text, more, e, s);
        OccursFrom(text, stops, e, k);
        assert false;
      } else {
        InsideEarlier(text, more, e, s, i, stops[w]);
        var init := s[..|s| - 1];
        OccursFrom(init, stops, i - e, w);
        var h := FirstMatch(init, stops).which;
        HeadOccurs(text + more, e, s, stops[h]);
        NoEarlierStop(stops, text, more, e, h);
      }
    }
  }

  /** A stop found at `i` lies inside an overhanging stop that starts at `e < i`. */
  lemma InsideEarlier(text: string, more: string, e: nat, s: string, i: nat, inner: string)
    requires At(text + more, e, s) && At(text, i, inner) && e < i && |text| < e + |s|
    ensures At(s[..|s| - 1], i - e, inner)
  {
    var whole := text + more;
    var j, n := i - e, |inner|;
    assert whole[e..e + |s|][j..j + n] == whole[i..i + n] == text[i..i + n];
    assert s[..|s| - 1][j..j + n] == s[j..j + n];
  }

  lemma HeadOccurs(text: string, e: nat, s: string, head: string)
    requires s != "" && At(text, e, s) && At(s[..|s| - 1], 0, head)
    ensures At(text, e, head) && |head| < |s|
  {
    assert text[e..e + |s|][..|head|] == text[e..e + |head|];
    assert s[..|s| - 1][..|head|] == s[..|head|];
  }

  lemma EarliestIsFinal(stops: seq<string>, text: string, more: string)
    requires NonEmpty(stops) && HeadFirst(stops) && FirstMatch(text, stops).Match?
    ensures FirstMatch(text + more, stops).Match?
    ensures FirstMatch(text + more, stops).index == FirstMatch(text, stops).index
  {
    hide FirstMatch; hide At; hide Occurs; hide HeadFirst;
    var Match(i, w) := FirstMatch(text, stops);
    AtFits(text, i, stops[w]);
    AtExtends(text, more, i, stops[w]);
    OccursFrom(text + more, stops, i, w);
    var Match(e, k) := FirstMatch(text + more, stops);
    if e < i {
      NoEarlierStop(stops, text, more, e, k);
    }
  }

  lemma {:induction false} CutIsTruncate(stops: seq<string>, seen: string, chunks: seq<string>)
    requires NonEmpty(stops) && HeadFirst(stops) && FirstMatch(seen, stops).NoMatch?
    ensures CutWhenSeen(stops, seen, chunks) == Truncate(stops, seen + Concat(chunks))
    decreases |chunks|
  {
    hide FirstMatch; hide HeadFirst; hide Occurs; hide At;
    if chunks == [] {
      assert seen + Concat(chunks) == seen;
    } else {
      var grown, rest := seen + chunks[0], Concat(chunks[1..]);
      assert seen + Concat(chunks) == grown + rest;
      if FirstMatch(grown, stops).Match? {
        EarliestIsFinal(stops, grown, rest);
        assert (grown + rest)[..FirstMatch(grown, stops).index] == grown[..FirstMatch(grown, stops).index];
      } else {
        CutIsTruncate(stops, grown, chunks[1..]);
      }
    }
  }

  /** The witness against invariance: one stop, whole or with its last character held back. */
  lemma SplitStopOutputs(stops: seq<string>, k: nat)
    requires NonEmpty(stops) && k < |stops|
    requires FirstMatch(stops[k][..|stops[k]| - 1], stops).Match?
    ensures var s := stops[k]; var init, last := s[..|s| - 1], s[|s| - 1..];
            Concat([s]) == Concat([init, last]) &&
            |Output(stops, [s])| == 0 &&
            |Output(stops, [init, last])| == FirstMatch(init, stops).index
  {
    hide FirstMatch; hide Output; hide At; hide Occurs; hide Retained;
    var s := stops[k];
    var init, last := s[..|s| - 1], s[|s| - 1..];
    assert [init, last][1..] == [last] && [last][1..] == [] && [s][1..] == [];
    assert init + last == s && "" + s == s && "" + init == init && s + "" == s && last + "" == last;
    OutputCutsWhenSeen(stops, [s]);
    OutputCutsWhenSeen(stops, [init, last]);
    AtSelf(s);
    OccursFrom(s, stops, 0, k);
  }

  /** Chunking cannot change the output of a stop list if and only if the list is head-first. */
  lemma ChunkInvariantIffHeadFirst(stops: seq<string>)
    requires NonEmpty(stops)
    ensures ChunkInvariant(stops) <==> HeadFirst(stops)
  {
    hide FirstMatch; hide Output;
    if HeadFirst(stops) {
      forall c: seq<string>, d: seq<string> | Concat(c) == Concat(d)
        ensures Output(stops, c) == Output(stops, d)
      {
        HeadFirstOutputIsTruncate(stops, c);
        HeadFirstOutputIsTruncate(stops, d);
      }
    } else {
      var k :| 0 <= k < |stops| && FirstMatch(stops[k][..|stops[k]| - 1], stops).Match?
               && FirstMatch(stops[k][..|stops[k]| - 1], stops).index != 0;
      SplitStopOutputs(stops, k);
    }
  }

  lemma HeadFirstOutputIsTruncate(stops: seq<string>, chunks: seq<string>)
    requires NonEmpty(stops) && HeadFirst(stops)
    ensures Output(stops, chunks) == Truncate(stops, Concat(chunks))
  {
    hide FirstMatch; hide Output; hide HeadFirst; hide CutWhenSeen;
    NothingInEmptyText(stops);
    OutputCutsWhenSeen(stops, chunks);
    CutIsTruncate(stops, "", chunks);
    assert "" + Concat(chunks) == Concat(chunks);
  }

  /** Chunking does matter for the stops `abcd` and `bc`: held back by one character, `abcd`
      is cut at `bc` instead. */
  lemma ChunkingCanMatter()
    ensures Output(["abcd", "bc"], ["abcd"]) == "" && Output(["abcd", "bc"], ["abc", "d"]) == "a"
    ensures !HeadFirst(["abcd", "bc"])
  {
    hide FirstMatch; hide Output;
    var stops := ["abcd", "bc"];
    assert stops[0][..|stops[0]| - 1] == "abc" && stops[0][|stops[0]| - 1..] == "d";
    assert At("abc", 1, stops[1]);
    OccursFrom("abc", stops, 1, 1);
    forall i | i < 1 ensures !Occurs("abc", stops, i) {
      assert i == 0 ==> "abc"[0..2][0] == 'a' && stops[1][0] == 'b';
    }
    SplitStopOutputs(stops, 0);
    OutputCutsWhenSeen(stops, ["abc", "d"]);
    assert ["abc", "d"][1..] == ["d"] && "" + "abc" == "abc" && "abc"[..1] == "a";
  }
}
