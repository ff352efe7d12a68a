/** The chat stream as a whole. The engine's text goes through the stop buffer, the thinking
    parser splits what that lets through, its content goes on to the tool-call parser as it
    comes, and all three are flushed at the end. */
module ChatStream {
  import opened Markers
  import S = StopBuffer
  import T = ThinkingStream
  import C = ToolCallStream

  // ----- from the engine to the parsers -----

  function Piece(text: string): seq<string> {
    if text == "" then [] else [text]
  }

  /** `_text_fragments`: what the stop buffer lets through, until it has stopped. */
  function Fragments(stops: seq<string>, st: S.StopState, texts: seq<string>): seq<string>
    decreases |texts|
  {
    if texts == [] then Piece(S.Flush(st).emitted)
    else
      var fed := S.Feed(stops, st, texts[0]);
      Piece(fed.emitted) +
      if fed.state.stopped then Piece(S.Flush(fed.state).emitted) else Fragments(stops, fed.state, texts[1..])
  }

  method TextFragments(stops: seq<string>, texts: seq<string>) returns (fragments: seq<string>)
    ensures fragments == Fragments(stops, S.START, texts)
  {
    hide S.Feed; hide S.Flush; hide Piece;
    var buffer := new S.StopSequenceBuffer(stops);
    fragments := [];
    var i := 0;
    assert texts[0..] == texts;
    while i < |texts|
      invariant i <= |texts| && fresh(buffer) && buffer.stops == stops
      invariant Fragments(stops, S.START, texts) == fragments + Fragments(stops, buffer.State(), texts[i..])
      decreases |texts| - i
    {
      assert texts[i..][0] == texts[i] && texts[i..][1..] == texts[i + 1..];
      var emitted := buffer.FeedText(texts[i]);
      ghost var before := fragments;
      fragments := Extend(fragments, emitted);
      i := i + 1;
      if buffer.stopped {
        FragmentsEnd(stops, buffer.State());
        break;
      }
    }
    assert Fragments(stops, S.START, texts) == fragments + Piece(S.Flush(buffer.State()).emitted);
    var tail := buffer.FlushText();
    fragments := Extend(fragments, tail);
  }

  method Extend(fragments: seq<string>, text: string) returns (after: seq<string>)
    ensures after == fragments + Piece(text)
  {
    after := if text == "" then fragments else fragments + [text];
  }

  lemma FragmentsEnd(stops: seq<string>, st: S.StopState)
    ensures Fragments(stops, st, []) == Piece(S.Flush(st).emitted)
  {
  }

  lemma {:induction false} ConcatPiece(text: string, more: seq<string>)
    ensures Concat(Piece(text) + more) == text + Concat(more)
  {
    if text == "" {
      assert Piece(text) + more == more && "" + Concat(more) == Concat(more);
    } else {
      assert (Piece(text) + more)[1..] == more;
    }
  }

  /** The fragments add up to the output of the stop buffer. */
  lemma {:induction false} FragmentsAreOutput(stops: seq<string>, st: S.StopState, texts: seq<string>)
    ensures Concat(Fragments(stops, st, texts)) == S.Run(stops, st, texts)
    decreases |texts|
  {
    hide Concat; hide Piece; hide S.Feed; hide S.Flush;
    if texts == [] {
      LastPiece(S.Flush(st).emitted);
    } else {
      var fed := S.Feed(stops, st, texts[0]);
      if fed.state.stopped {
        ConcatPiece(fed.emitted, Piece(S.Flush(fed.state).emitted));
        LastPiece(S.Flush(fed.state).emitted);
        S.StoppedEmitsNothing(stops, fed.state, texts[1..]);
        StoppedFlush(fed.state);
      } else {
        ConcatPiece(fed.emitted, Fragments(stops, fed.state, texts[1..]));
        FragmentsAreOutput(stops, fed.state, texts[1..]);
      }
    }
  }

  lemma StoppedFlush(st: S.StopState)
    requires st.stopped
    ensures S.Flush(st).emitted == ""
  {
  }

  lemma LastPiece(text: string)
    ensures Concat(Piece(text)) == text
  {
    ConcatPiece(text, []);
    assert Piece(text) + [] == Piece(text) && text + "" == text;
  }

  // ----- the two parsers in a row -----

  /** The content fragments, in order; reasoning never reaches the tool-call parser. */
  function ContentOf(fragments: seq<T.Fragment>): seq<string> {
    if fragments == [] then []
    else (if fragments[0].reasoning then [] else [fragments[0].text]) + ContentOf(fragments[1..])
  }

  /** What a chat answer delivers: the reasoning text, and the content and calls, or `None`
      where the tool-call parser raises. */
  datatype Answer<+D> = Answer(reasoning: string, delivered: C.Option<seq<C.Delivered<D>>>)

  /** `_chat_events` over the raw fragments of the engine. */
  function Chat<D>(parse: C.BlockParser<D>, initialReasoning: bool, raw: seq<string>): Answer<D> {
    var fragments := T.Run(T.ParserState(initialReasoning, ""), raw);
    Answer(T.Joined(fragments, true), C.Delivery(C.Run(parse, "", ContentOf(fragments))))
  }

  lemma {:induction false} ContentIsJoined(fragments: seq<T.Fragment>)
    ensures Concat(ContentOf(fragments)) == T.Joined(fragments, false)
  {
    if fragments != [] {
      var first, rest := fragments[0], ContentOf(fragments[1..]);
      ContentIsJoined(fragments[1..]);
      assert !first.reasoning ==> ([first.text] + rest)[1..] == rest;
      assert [] + rest == rest;
    }
  }

  /** However the engine cuts its text, and however the first parser cuts what it hands to the
      second, the answer is that of the whole text: the calls and content of its content part. */
  lemma ChatIsChunkInvariant<D>(parse: C.BlockParser<D>, initialReasoning: bool, raw: seq<string>, raw': seq<string>)
    requires Concat(raw) == Concat(raw')
    ensures Chat(parse, initialReasoning, raw) == Chat(parse, initialReasoning, raw')
    ensures Chat(parse, initialReasoning, raw).delivered ==
            C.Delivery(C.Run(parse, "", [T.Joined(T.Run(T.ParserState(initialReasoning, ""), raw), false)]))
  {
    hide T.Run; hide T.Joined; hide C.Run; hide C.Delivery; hide C.WholeText; hide ContentOf; hide T.Lex; hide T.Select;
    var one, two := T.Run(T.ParserState(initialReasoning, ""), raw), T.Run(T.ParserState(initialReasoning, ""), raw');
    ContentIsJoined(one);
    ContentIsJoined(two);
    C.StreamIsSegmentation(parse, ContentOf(one));
    C.StreamIsSegmentation(parse, ContentOf(two));
    T.StreamAgreesWithSplit(initialReasoning, raw, true);
    T.StreamAgreesWithSplit(initialReasoning, raw', true);
    T.StreamAgreesWithSplit(initialReasoning, raw, false);
    T.StreamAgreesWithSplit(initialReasoning, raw', false);
    var content := T.Joined(one, false);
    C.StreamIsSegmentation(parse, [content]);
    assert [content][1..] == [] && content + "" == content;
  }

  /** What the server makes of an engine's texts. */
  function Served<D>(parse: C.BlockParser<D>, stops: seq<string>, initialReasoning: bool, texts: seq<string>)
    : Answer<D>
  {
    Chat(parse, initialReasoning, Fragments(stops, S.START, texts))
  }

  /** With stop sequences of which each can be told by its first character, a chat answer is a
      function of the engine's text alone, cut at its earliest stop: no way of cutting the text
      into pieces changes the reasoning, the content or the calls. */
  lemma AnswerIsOfTheWholeText<D>(parse: C.BlockParser<D>, stops: seq<string>, initialReasoning: bool,
                                  texts: seq<string>)
    requires NonEmpty(stops) && S.HeadFirst(stops)
    ensures Served(parse, stops, initialReasoning, texts) ==
            Chat(parse, initialReasoning, [S.Truncate(stops, Concat(texts))])
  {
    hide Chat; hide S.Truncate; hide S.Run; hide Fragments; hide S.HeadFirst;
    FragmentsAreOutput(stops, S.START, texts);
    S.HeadFirstOutputIsTruncate(stops, texts);
    OneText(S.Truncate(stops, Concat(texts)));
    ChatIsChunkInvariant(parse, initialReasoning, Fragments(stops, S.START, texts), [S.Truncate(stops, Concat(texts))]);
  }

  /** A thought is reasoning as a whole, whatever call blocks are written in it: only what
      stands behind it is searched for calls. */
  lemma CallsAreOutsideThoughts<D>(parse: C.BlockParser<D>, raw: seq<string>, thought: string, answer: string)
    requires Concat(raw) == "<think>" + (thought + ("</think>" + answer))
    requires T.PlainUpTo(thought + ("</think>" + answer), |thought|) && T.PlainUpTo(answer, |answer|)
    ensures Chat(parse, false, raw) == Answer(thought, C.Delivery(C.Run(parse, "", [answer])))
  {
    hide T.Run; hide T.Joined; hide C.Run; hide C.Delivery; hide ContentOf; hide T.PlainUpTo; hide C.WholeText;
    var inside, behind := [thought + ("</think>" + answer)], [answer];
    OneText(inside[0]);
    OneText(answer);
    NothingBefore("<think>" + Concat(inside));
    assert Concat(raw) == "" + ("<think>" + Concat(inside));
    forall field: bool
      ensures T.Joined(T.Run(T.ParserState(false, ""), raw), field) == if field then thought else answer {
      T.FirstMarkerDecides(false, raw, "", "<think>", inside, field);
      T.FirstMarkerDecides(true, inside, thought, "</think>", behind, field);
      T.PlainTextStays(false, behind, field);
    }
    ChatIsChunkInvariant(parse, false, raw, raw);
  }

  lemma OneText(text: string)
    ensures Concat([text]) == text
  {
    assert [text][1..] == [] && text + "" == text;
  }

  lemma NothingBefore(text: string)
    ensures T.PlainUpTo(text, 0)
  {
  }

  // ----- the event loop -----

  lemma ContentCons(first: T.Fragment, rest: seq<T.Fragment>)
    ensures ContentOf([first] + rest) == (if first.reasoning then [] else [first.text]) + ContentOf(rest)
  {
    assert ([first] + rest)[1..] == rest;
  }

  lemma {:induction false} ContentConcat(a: seq<T.Fragment>, b: seq<T.Fragment>)
    ensures ContentOf(a + b) == ContentOf(a) + ContentOf(b)
  {
    hide ContentOf;
    if a == [] {
      assert a + b == b && ContentOf([]) == [] by { NoContent(); }
    } else {
      assert a + b == [a[0]] + (a[1..] + b) && a == [a[0]] + a[1..];
      ContentConcat(a[1..], b);
      ContentCons(a[0], a[1..]);
      ContentCons(a[0], a[1..] + b);
    }
  }

  lemma NoContent()
    ensures ContentOf([]) == []
  {
  }

  /** What the tool-call parser makes of content texts and leaves in its buffer. */
  function FeedAll<D>(parse: C.BlockParser<D>, buffer: string, texts: seq<string>)
    : C.Option<(seq<C.Emission<D>>, string)>
    decreases |texts|
  {
    if texts == [] then C.Some(([], buffer))
    else
      var scan := C.Scan(buffer + texts[0]);
      var first, rest := C.ParseEvents(parse, scan.events), FeedAll(parse, scan.buffer, texts[1..]);
      if first.None? || rest.None? then C.None else C.Some((first.value + rest.value.0, rest.value.1))
  }

  lemma {:induction false} FeedAllThenRun<D>(parse: C.BlockParser<D>, buffer: string, a: seq<string>, b: seq<string>)
    ensures C.Run(parse, buffer, a + b) ==
            match FeedAll(parse, buffer, a)
            case None => C.None
            case Some(fed) => C.Join(C.Some(fed.0), C.Run(parse, fed.1, b))
    decreases |a|
  {
    hide C.Scan; hide C.ParseEvents; hide C.FlushParsed;
    if a == [] {
      assert a + b == b;
      C.JoinAssociates(C.Run(parse, buffer, b), C.None, C.None);
    } else {
      assert (a + b)[1..] == a[1..] + b;
      var scan := C.Scan(buffer + a[0]);
      FeedAllThenRun(parse, scan.buffer, a[1..], b);
      var first, rest := C.ParseEvents(parse, scan.events), FeedAll(parse, scan.buffer, a[1..]);
      if first.Some? && rest.Some? {
        C.JoinAssociates(first, C.Some(rest.value.0), C.Run(parse, rest.value.1, b));
      }
    }
  }

  lemma FedOne<D>(parse: C.BlockParser<D>, buffer: string, text: string)
    ensures var scan := C.Scan(buffer + text);
            FeedAll(parse, buffer, [text]) ==
            if C.ParseEvents(parse, scan.events).None? then C.None
            else C.Some((C.ParseEvents(parse, scan.events).value, scan.buffer))
  {
    var scan := C.Scan(buffer + text);
    assert [text][1..] == [];
    assert FeedAll(parse, scan.buffer, [text][1..]) == C.Some(([], scan.buffer));
    assert C.ParseEvents(parse, scan.events).Some? ==>
        C.ParseEvents(parse, scan.events).value + [] == C.ParseEvents(parse, scan.events).value;
  }

  /** One content text, with whatever texts are still to come. */
  method ForwardOne<D(==)>(tools: C.ToolCallStreamParser<D>, text: string, ghost later: seq<string>)
    returns (fed: C.Option<seq<C.Emission<D>>>)
    modifies tools
    ensures C.Run(tools.parse, old(tools.buffer), [text] + later) ==
            if fed.Some? then C.Join(fed, C.Run(tools.parse, tools.buffer, later)) else C.None
  {
    hide C.Run; hide C.ParseEvents; hide C.Scan; hide FeedAll; hide C.FlushParsed;
    FeedAllThenRun(tools.parse, tools.buffer, [text], later);
    FedOne(tools.parse, tools.buffer, text);
    fed := tools.FeedText(text);
  }

  lemma JoinedCons(first: T.Fragment, rest: seq<T.Fragment>, field: bool)
    ensures T.Joined([first] + rest, field) ==
            (if first.reasoning == field then first.text else "") + T.Joined(rest, field)
  {
    assert ([first] + rest)[1..] == rest;
  }

  lemma NoneJoined(field: bool)
    ensures T.Joined([], field) == ""
  {
  }

  /** `_chat_protocol_events` for the fragments of one step: reasoning is handed out, content
      goes to the tool-call parser; false where that raises. */
  method Forward<D(==)>(tools: C.ToolCallStreamParser<D>, fragments: seq<T.Fragment>, ghost later: seq<string>)
    returns (ok: bool, reasoning: string, emitted: seq<C.Emission<D>>)
    modifies tools
    ensures reasoning == T.Joined(fragments, true) || !ok
    ensures C.Run(tools.parse, old(tools.buffer), ContentOf(fragments) + later) ==
            if ok then C.Join(C.Some(emitted), C.Run(tools.parse, tools.buffer, later)) else C.None
  {
    hide C.Run; hide ContentOf; hide T.Joined; hide C.Join;
    ok, reasoning, emitted := true, "", [];
    ghost var all := C.Run(tools.parse, tools.buffer, ContentOf(fragments) + later);
    assert fragments[0..] == fragments;
    C.JoinAssociates(all, C.None, C.None);
    for i := 0 to |fragments|
      invariant ok && reasoning + T.Joined(fragments[i..], true) == T.Joined(fragments, true)
      invariant all == C.Join(C.Some(emitted), C.Run(tools.parse, tools.buffer, ContentOf(fragments[i..]) + later))
    {
      var f := fragments[i];
      ghost var rest := ContentOf(fragments[i + 1..]) + later;
      assert fragments[i..] == [f] + fragments[i + 1..];
      ContentCons(f, fragments[i + 1..]);
      JoinedCons(f, fragments[i + 1..], true);
      if f.reasoning {
        assert [] + ContentOf(fragments[i + 1..]) + later == rest;
        reasoning := reasoning + f.text;
      } else {
        assert [f.text] + ContentOf(fragments[i + 1..]) + later == [f.text] + rest;
        var fed := ForwardOne(tools, f.text, rest);
        if fed.None? {
          JoinNone(emitted);
          return false, reasoning, emitted;
        }
        C.JoinAssociates(C.Some(emitted), fed, C.Run(tools.parse, tools.buffer, rest));
        JoinSome(emitted, fed.value);
        emitted := emitted + fed.value;
      }
    }
    assert fragments[|fragments|..] == [];
    NoContent();
    NoneJoined(true);
    assert [] + later == later;
  }

  lemma JoinNone<D>(a: seq<C.Emission<D>>)
    ensures C.Join(C.Some(a), C.None) == C.None
  {
  }

  lemma JoinSome<D>(a: seq<C.Emission<D>>, b: seq<C.Emission<D>>)
    ensures C.Join(C.Some(a), C.Some(b)) == C.Some(a + b)
  {
  }

  lemma {:induction false} JoinedConcat(a: seq<T.Fragment>, b: seq<T.Fragment>, field: bool)
    ensures T.Joined(a + b, field) == T.Joined(a, field) + T.Joined(b, field)
  {
    if a == [] {
      assert a + b == b;
    } else {
      assert (a + b)[1..] == a[1..] + b && (a + b)[0] == a[0];
      JoinedConcat(a[1..], b, field);
    }
  }

  lemma RunStep(st: T.ParserState, chunks: seq<string>)
    requires chunks != []
    ensures var fed := T.Feed(st.inReasoning, st.buffer + chunks[0]);
            T.Run(st, chunks) == fed.fragments + T.Run(fed.state, chunks[1..])
  {
  }

  /** `_chat_events`: every fragment through both parsers, then both flushes. */
  method ChatEvents<D(==)>(parse: C.BlockParser<D>, initialReasoning: bool, raw: seq<string>)
    returns (ok: bool, reasoning: string, emitted: seq<C.Emission<D>>)
    ensures ok <==> Chat(parse, initialReasoning, raw).delivered.Some?
    ensures ok ==> Chat(parse, initialReasoning, raw) == Answer(reasoning, C.Some(C.Deliver(emitted)))
  {
    hide C.Run; hide T.Run; hide T.Feed; hide T.Joined; hide ContentOf; hide C.FlushParsed; hide C.Deliver;
    var thinking := new T.ThinkingStreamParser(initialReasoning);
    var tools := new C.ToolCallStreamParser(parse);
    ok, reasoning, emitted := true, "", [];
    ghost var whole := T.Run(thinking.State(), raw);
    ghost var all := C.Run(parse, "", ContentOf(whole));
    C.JoinAssociates(all, C.None, C.None);
    assert raw[0..] == raw;
    for i := 0 to |raw|
      invariant ok && fresh(thinking) && fresh(tools) && tools.parse == parse
      invariant reasoning + T.Joined(T.Run(thinking.State(), raw[i..]), true) == T.Joined(whole, true)
      invariant all == C.Join(C.Some(emitted), C.Run(parse, tools.buffer, ContentOf(T.Run(thinking.State(), raw[i..]))))
    {
      assert raw[i..][0] == raw[i] && raw[i..][1..] == raw[i + 1..];
      RunStep(thinking.State(), raw[i..]);
      var fragments := thinking.FeedText(raw[i]);
      ghost var rest := T.Run(thinking.State(), raw[i + 1..]);
      ContentConcat(fragments, rest);
      JoinedConcat(fragments, rest, true);
      var more: string, events: seq<C.Emission<D>>;
      ok, more, events := Forward(tools, fragments, ContentOf(rest));
      if !ok {
        return;
      }
      C.JoinAssociates(C.Some(emitted), C.Some(events), C.Run(parse, tools.buffer, ContentOf(rest)));
      reasoning, emitted := reasoning + more, emitted + events;
    }
    RunEnd(thinking.State());
    assert raw[|raw|..] == [];
    var tail := thinking.FlushText();
    var more: string, events: seq<C.Emission<D>>;
    assert ContentOf(tail) + [] == ContentOf(tail);
    ok, more, events := Forward(tools, tail, []);
    if !ok {
      return;
    }
    C.JoinAssociates(C.Some(emitted), C.Some(events), C.Run(parse, tools.buffer, []));
    reasoning, emitted := reasoning + more, emitted + events;
    ToolsEnd(parse, tools.buffer);
    var last := tools.FlushText();
    if last.None? {
      return false, reasoning, emitted;
    }
    emitted := emitted + last.value;
  }

  lemma RunEnd(st: T.ParserState)
    ensures T.Run(st, []) == T.Piece(st.inReasoning, st.buffer)
  {
  }

  lemma ToolsEnd<D>(parse: C.BlockParser<D>, buffer: string)
    ensures C.Run(parse, buffer, []) == C.FlushParsed(parse, buffer)
  {
  }
}
