/** Reasoning and visible text in a streamed answer. The parser sees the text in
    chunks; its fragments are compared with a one-pass lexer over the whole text. */
module ThinkingStream {
  import opened Markers
  import G = GemmaKeys

  datatype Effect = Leave | Set(reasoning: bool)
  datatype Fragment = Fragment(reasoning: bool, text: string)
  datatype ParserState = ParserState(inReasoning: bool, buffer: string)
  datatype Fed = Fed(state: ParserState, fragments: seq<Fragment>)

  function Table(): seq<string> {
    ["<|channel>thought\n", "<|channel>analysis\n", "<|channel>final\n", "<|channel>commentary\n",
     "<think>", "</think>", "<channel|>"]
  }

  /** What each marker does to the current field; the bare channel end leaves it alone. */
  function Effects(): seq<Effect> {
    [Set(true), Set(true), Set(false), Set(false), Set(true), Set(false), Leave]
  }

  lemma MarkersAreHeaded()
    ensures |Effects()| == |Table()| && Headed(Table()) && NonEmpty(Table())
  {
    var ms := Table();
    forall k | 0 <= k < |ms|
      ensures ms[k] != "" && ms[k][0] == '<'
      ensures forall j :: 0 < j < |ms[k]| ==> ms[k][j] != '<'
    {
      assert k == 0 || k == 1 || k == 2 || k == 3 || k == 4 || k == 5 || k == 6;
    }
    forall k, l | 0 <= k < |ms| && 0 <= l < |ms| && k != l ensures !(ms[k] <= ms[l]) {
      assert k < 4 ==> ms[k][1] == '|' && ms[k][10] == ['t', 'a', 'f', 'c'][k];
      assert l < 4 ==> ms[l][1] == '|' && ms[l][10] == ['t', 'a', 'f', 'c'][l];
      assert k >= 4 ==> ms[k][1] == ['t', '/', 'c'][k - 4];
      assert l >= 4 ==> ms[l][1] == ['t', '/', 'c'][l - 4];
    }
  }

  function After(effect: Effect, inReasoning: bool): bool {
    if effect.Set? then effect.reasoning else inReasoning
  }

  function Piece(inReasoning: bool, text: string): seq<Fragment> {
    if text == "" then [] else [Fragment(inReasoning, text)]
  }

  function Feed(inReasoning: bool, buffer: string): Fed
    decreases |buffer|
  {
    MarkersAreHeaded();
    if buffer == "" then Fed(ParserState(inReasoning, buffer), [])
    else
      match FirstMatch(buffer, Table())
      case Match(index, which) =>
        var rest := Feed(After(Effects()[which], inReasoning), buffer[index + |Table()[which]|..]);
        Fed(rest.state, Piece(inReasoning, buffer[..index]) + rest.fragments)
      case NoMatch =>
        var kept := |buffer| - Retained(buffer, Table());
        Fed(ParserState(inReasoning, buffer[kept..]), Piece(inReasoning, buffer[..kept]))
  }

  lemma FeedStep(inReasoning: bool, buffer: string)
    requires buffer != ""
    ensures |Effects()| == |Table()|
    ensures var m := FirstMatch(buffer, Table());
            m.Match? ==> Table()[m.which] != "" && m.index + |Table()[m.which]| <= |buffer|
    ensures var m := FirstMatch(buffer, Table());
            m.Match? ==>
              var rest := Feed(After(Effects()[m.which], inReasoning), buffer[m.index + |Table()[m.which]|..]);
              Feed(inReasoning, buffer) == Fed(rest.state, Piece(inReasoning, buffer[..m.index]) + rest.fragments)
    ensures FirstMatch(buffer, Table()).NoMatch? ==>
              var kept := |buffer| - Retained(buffer, Table());
              Feed(inReasoning, buffer)
              == Fed(ParserState(inReasoning, buffer[kept..]), Piece(inReasoning, buffer[..kept]))
  {
    hide FirstMatch; hide Retained; hide At; hide Occurs; hide Pending; hide Table; hide Effects; hide Headed;
    hide After;
    MarkersAreHeaded();
    if FirstMatch(buffer, Table()).Match? {
      AtFits(buffer, FirstMatch(buffer, Table()).index, Table()[FirstMatch(buffer, Table()).which]);
    }
  }

  lemma FeedNothing()
    ensures forall r :: Feed(r, "") == Fed(ParserState(r, ""), [])
  {
  }

  /** The mutable parser; its methods are tied to `Feed`. */
  class ThinkingStreamParser {
    var inReasoning: bool
    var buffer: string

    function State(): ParserState
      reads this
    {
      ParserState(inReasoning, buffer)
    }

    constructor (initialReasoning: bool)
      ensures State() == ParserState(initialReasoning, "")
    {
      inReasoning, buffer := initialReasoning, "";
    }

    method FeedText(text: string) returns (emitted: seq<Fragment>)
      modifies this
      ensures Fed(State(), emitted) == Feed(old(inReasoning), old(buffer) + text)
    {
      hide FirstMatch; hide Retained; hide At; hide Occurs; hide Pending;
      hide Table; hide Effects; hide Headed; hide Feed; hide After;
      buffer := buffer + text;
      emitted := [];
      ghost var whole := Feed(inReasoning, buffer);
      while buffer != ""
        invariant var rest := Feed(inReasoning, buffer);
                  whole == Fed(rest.state, emitted + rest.fragments)
        decreases |buffer|
      {
        FeedStep(inReasoning, buffer);
        var found := FirstMatch(buffer, Table());
        if found.NoMatch? {
          emitted := HoldBack(emitted);
          return;
        }
        ghost var before, rest := emitted, Feed(inReasoning, buffer);
        var plain := buffer[..found.index];
        if found.index > 0 {
          emitted := emitted + [Fragment(inReasoning, plain)];
        }
        buffer := buffer[found.index + |Table()[found.which]|..];
        inReasoning := After(Effects()[found.which], inReasoning);
        assert before + rest.fragments == emitted + Feed(inReasoning, buffer).fragments;
      }
      FeedNothing();
    }

    /** The tail of a feed that found no complete marker. */
    method HoldBack(before: seq<Fragment>) returns (emitted: seq<Fragment>)
      modifies this`buffer
      ensures var kept := |old(buffer)| - Retained(old(buffer), Table());
              emitted == before + Piece(inReasoning, old(buffer)[..kept]) && buffer == old(buffer)[kept..]
    {
      hide Retained; hide Table;
      emitted := before;
      var retained := Retained(buffer, Table());
      if retained > 0 {
        var prefix := buffer[..|buffer| - retained];
        if prefix != "" {
          emitted := emitted + [Fragment(inReasoning, prefix)];
        }
        buffer := buffer[|buffer| - retained..];
      } else {
        assert buffer[..|buffer| - 0] == buffer;
        if buffer != "" {
          emitted := emitted + [Fragment(inReasoning, buffer)];
        }
        buffer := "";
      }
    }

    method FlushText() returns (emitted: seq<Fragment>)
      modifies this`buffer
      ensures emitted == Piece(inReasoning, old(buffer)) && buffer == ""
    {
      if buffer == "" {
        return [];
      }
      emitted := [Fragment(inReasoning, buffer)];
      buffer := "";
    }
  }

  // ----- the reference lexer -----

  /** One visible character together with the field it belongs to. Two fragment lists
      merge to the same text exactly when they carry the same tagged characters. */
  datatype Tagged = Tagged(c: char, reasoning: bool)

  /** One pass over the whole text: a marker at the head is dropped and switches the
      field; any other character is kept as text of the current field. */
  function Lex(inReasoning: bool, text: string): seq<Tagged>
    decreases |text|
  {
    MarkersAreHeaded();
    if text == "" then []
    else
      match HeadMarker(text, Table())
      case Match(_, which) => Lex(After(Effects()[which], inReasoning), text[|Table()[which]|..])
      case NoMatch => [Tagged(text[0], inReasoning)] + Lex(inReasoning, text[1..])
  }

  function Tag(inReasoning: bool, text: string): seq<Tagged> {
    if text == "" then [] else [Tagged(text[0], inReasoning)] + Tag(inReasoning, text[1..])
  }

  function Tags(fragments: seq<Fragment>): seq<Tagged> {
    if fragments == [] then []
    else Tag(fragments[0].reasoning, fragments[0].text) + Tags(fragments[1..])
  }

  lemma {:induction false} TagsConcat(a: seq<Fragment>, b: seq<Fragment>)
    ensures Tags(a + b) == Tags(a) + Tags(b)
  {
    if a == [] {
      assert a + b == b;
    } else {
      assert (a + b)[1..] == a[1..] + b;
      TagsConcat(a[1..], b);
    }
  }

  lemma TagsOfPiece(inReasoning: bool, text: string)
    ensures Tags(Piece(inReasoning, text)) == Tag(inReasoning, text)
  {
    if text != "" {
      assert Piece(inReasoning, text)[1..] == [];
    }
  }

  /** Text in which no marker starts passes through the lexer unchanged. */
  lemma {:induction false} LexPlain(inReasoning: bool, plain: string, rest: string)
    requires forall i :: 0 <= i < |plain| ==> !Occurs(plain + rest, Table(), i)
    ensures Lex(inReasoning, plain + rest) == Tag(inReasoning, plain) + Lex(inReasoning, rest)
    decreases |plain|
  {
    hide At; hide Occurs; hide HeadMarker; hide Table; hide Effects; hide Headed;
    if plain == "" {
      assert plain + rest == rest;
    } else {
      var text := plain + rest;
      assert text[1..] == plain[1..] + rest;
      forall i | 0 <= i < |plain[1..]| ensures !Occurs(plain[1..] + rest, Table(), i) {
        assert text == [text[0]] + text[1..];
        OccursShifts([text[0]], text[1..], Table(), i);
      }
      LexPlain(inReasoning, plain[1..], rest);
      if HeadMarker(text, Table()).Match? {
        OccursFrom(text, Table(), 0, HeadMarker(text, Table()).which);
        assert false;
      }
    }
  }

  /** One feed, whatever text `later` is still to come, emits exactly what the lexer
      makes of the consumed text and leaves the lexer to go on from the held buffer. */
  lemma {:induction false} FeedFollowsLexer(inReasoning: bool, buffer: string, later: string)
    ensures var fed := Feed(inReasoning, buffer);
            Lex(inReasoning, buffer + later) ==
              Tags(fed.fragments) + Lex(fed.state.inReasoning, fed.state.buffer + later)
    ensures FirstMatch(Feed(inReasoning, buffer).state.buffer, Table()).NoMatch?
    decreases |buffer|
  {
    hide FirstMatch; hide Retained; hide At; hide Occurs; hide HeadMarker; hide Table; hide Effects; hide Headed;
    hide Lex;
    MarkersAreHeaded();
    if buffer == "" {
      EmptyHasNoMarker();
    } else {
      match FirstMatch(buffer, Table())
      case Match(index, which) => FeedPastMarker(inReasoning, buffer, later);
      case NoMatch =>
        var kept := |buffer| - Retained(buffer, Table());
        var plain, held := buffer[..kept], buffer[kept..];
        assert buffer + later == plain + (held + later);
        forall i | 0 <= i < kept ensures !Occurs(plain + (held + later), Table(), i) {
          RetainedDecides(buffer, later, Table(), i);
        }
        LexPlain(inReasoning, plain, held + later);
        TagsOfPiece(inReasoning, plain);
        RetainedDecidesMatch(buffer, "", Table());
        assert held + "" == held && buffer + "" == buffer;
    }
  }

  lemma EmptyHasNoMarker()
    ensures FirstMatch("", Table()).NoMatch?
  {
    hide FirstMatch;
    MarkersAreHeaded();
  }

  lemma FeedPastMarker(inReasoning: bool, buffer: string, later: string)
    requires buffer != "" && FirstMatch(buffer, Table()).Match?
    ensures var fed := Feed(inReasoning, buffer);
            Lex(inReasoning, buffer + later) ==
              Tags(fed.fragments) + Lex(fed.state.inReasoning, fed.state.buffer + later)
    ensures FirstMatch(Feed(inReasoning, buffer).state.buffer, Table()).NoMatch?
    decreases |buffer|, 0
  {
    hide FirstMatch; hide Retained; hide At; hide Occurs; hide HeadMarker; hide Table; hide Effects; hide Headed;
    hide Feed; hide Lex; hide Tags; hide Tag; hide After;
    MarkersAreHeaded();
    FeedStep(inReasoning, buffer);
    var Match(index, which) := FirstMatch(buffer, Table());
    var marker := Table()[which];
    AtFits(buffer, index, marker);
    var plain, tail := buffer[..index], buffer[index..] + later;
    var rest := buffer[index + |marker|..];
    EarliestStays(buffer, later, Table());
    assert buffer + later == plain + tail;
    LexPlain(inReasoning, plain, tail);
    MarkerAtHead(plain, tail, which);
    LexStep(inReasoning, tail, which);
    assert tail[|marker|..] == rest + later;
    FeedFollowsLexer(After(Effects()[which], inReasoning), rest, later);
    TagsOfPiece(inReasoning, plain);
    TagsConcat(Piece(inReasoning, plain), Feed(After(Effects()[which], inReasoning), rest).fragments);
  }

  lemma LexStep(inReasoning: bool, text: string, which: nat)
    requires which < |Table()| && |Effects()| == |Table()| && text != ""
    requires HeadMarker(text, Table()) == Match(0, which)
    ensures |Table()[which]| <= |text|
    ensures Lex(inReasoning, text) == Lex(After(Effects()[which], inReasoning), text[|Table()[which]|..])
  {
    hide HeadMarker; hide Table; hide Effects; hide Headed;
  }

  lemma MarkerAtHead(plain: string, tail: string, which: nat)
    requires forall k :: 0 <= k < |Table()| ==> (At(plain + tail, |plain|, Table()[k]) <==> k == which)
    requires which < |Table()|
    ensures HeadMarker(tail, Table()) == Match(0, which)
  {
    hide At; hide HeadMarker; hide Occurs;
    forall k | 0 <= k < |Table()| ensures At(tail, 0, Table()[k]) <==> k == which {
      AtShifts(plain, tail, 0, Table()[k]);
    }
    OccursFrom(tail, Table(), 0, which);
  }

  // ----- whole runs -----

  /** All fragments emitted for `chunks` followed by a flush. */
  function Run(st: ParserState, chunks: seq<string>): seq<Fragment>
    decreases |chunks|
  {
    if chunks == [] then Piece(st.inReasoning, st.buffer)
    else
      var fed := Feed(st.inReasoning, st.buffer + chunks[0]);
      fed.fragments + Run(fed.state, chunks[1..])
  }

  lemma {:induction false} RunFollowsLexer(st: ParserState, chunks: seq<string>)
    requires FirstMatch(st.buffer, Table()).NoMatch?
    ensures Tags(Run(st, chunks)) == Lex(st.inReasoning, st.buffer + Concat(chunks))
    decreases |chunks|
  {
    hide FirstMatch; hide Occurs; hide Feed; hide Lex; hide Tags; hide Table;
    if chunks == [] {
      TagsOfPiece(st.inReasoning, st.buffer);
      assert st.buffer + "" == st.buffer;
      LexPlain(st.inReasoning, st.buffer, "");
      assert st.buffer + "" == st.buffer && Lex(st.inReasoning, "") == [] by { LexNothing(); }
    } else {
      var fed := Feed(st.inReasoning, st.buffer + chunks[0]);
      var later := Concat(chunks[1..]);
      FeedFollowsLexer(st.inReasoning, st.buffer + chunks[0], later);
      assert st.buffer + Concat(chunks) == (st.buffer + chunks[0]) + later;
      RunFollowsLexer(fed.state, chunks[1..]);
      TagsConcat(fed.fragments, Run(fed.state, chunks[1..]));
    }
  }

  lemma LexNothing()
    ensures forall r :: Lex(r, "") == []
  {
  }

  /** For every way of cutting a text into chunks, the merged fragments are those of the
      one-pass lexer on the whole text. */
  lemma StreamIsLexer(initialReasoning: bool, chunks: seq<string>)
    ensures Tags(Run(ParserState(initialReasoning, ""), chunks)) == Lex(initialReasoning, Concat(chunks))
  {
    EmptyHasNoMarker();
    RunFollowsLexer(ParserState(initialReasoning, ""), chunks);
    assert "" + Concat(chunks) == Concat(chunks);
  }

  // ----- the batch path -----

  /** The joined text of one field. */
  function Joined(fragments: seq<Fragment>, reasoning: bool): string {
    if fragments == [] then ""
    else (if fragments[0].reasoning == reasoning then fragments[0].text else "") + Joined(fragments[1..], reasoning)
  }

  function Select(tags: seq<Tagged>, reasoning: bool): string {
    if tags == [] then ""
    else (if tags[0].reasoning == reasoning then [tags[0].c] else "") + Select(tags[1..], reasoning)
  }

  lemma {:induction false} SelectConcat(a: seq<Tagged>, b: seq<Tagged>, reasoning: bool)
    ensures Select(a + b, reasoning) == Select(a, reasoning) + Select(b, reasoning)
  {
    if a == [] {
      assert a + b == b;
    } else {
      assert (a + b)[1..] == a[1..] + b && (a + b)[0] == a[0];
      SelectConcat(a[1..], b, reasoning);
      var head := if a[0].reasoning == reasoning then [a[0].c] else "";
      assert head + (Select(a[1..], reasoning) + Select(b, reasoning))
          == (head + Select(a[1..], reasoning)) + Select(b, reasoning);
    }
  }

  lemma {:induction false} SelectTag(field: bool, text: string, reasoning: bool)
    ensures Select(Tag(field, text), reasoning) == if field == reasoning then text else ""
  {
    if text != "" {
      SelectTag(field, text[1..], reasoning);
      assert Tag(field, text)[1..] == Tag(field, text[1..]);
    }
  }

  lemma {:induction false} JoinedIsSelected(fragments: seq<Fragment>, reasoning: bool)
    ensures Joined(fragments, reasoning) == Select(Tags(fragments), reasoning)
  {
    if fragments != [] {
      JoinedIsSelected(fragments[1..], reasoning);
      SelectTag(fragments[0].reasoning, fragments[0].text, reasoning);
      SelectConcat(Tag(fragments[0].reasoning, fragments[0].text), Tags(fragments[1..]), reasoning);
    }
  }

  /** `str.strip`. */
  function Strip(text: string): string
    decreases |text|
  {
    if text != "" && G.IsSpace(text[0]) then Strip(text[1..])
    else if text != "" && G.IsSpace(text[|text| - 1]) then Strip(text[..|text| - 1])
    else text
  }

  /** Stripping removes white space at both ends, all of it, and nothing else. */
  lemma {:induction false} StripIs(text: string) returns (before: string, after: string)
    ensures text == before + Strip(text) + after && G.AllSpace(before) && G.AllSpace(after)
    ensures Strip(text) != "" ==> !G.IsSpace(Strip(text)[0]) && !G.IsSpace(Strip(text)[|Strip(text)| - 1])
    decreases |text|
  {
    hide G.IsSpace;
    before, after := "", "";
    if text != "" && G.IsSpace(text[0]) {
      before, after := StripIs(text[1..]);
      before := [text[0]] + before;
    } else if text != "" && G.IsSpace(text[|text| - 1]) {
      before, after := StripIs(text[..|text| - 1]);
      after := after + [text[|text| - 1]];
    }
  }

  /** `split_reasoning`: the parser fed once with the whole text, and both fields stripped. */
  method SplitReasoning(text: string, initialReasoning: bool) returns (reasoning: string, content: string)
    ensures reasoning == Strip(Select(Lex(initialReasoning, text), true))
    ensures content == Strip(Select(Lex(initialReasoning, text), false))
    ensures reasoning == Strip(Joined(Run(ParserState(initialReasoning, ""), [text]), true))
    ensures content == Strip(Joined(Run(ParserState(initialReasoning, ""), [text]), false))
  {
    hide Lex; hide Feed; hide Tags; hide Select; hide Piece; hide Strip;
    var parser := new ThinkingStreamParser(initialReasoning);
    var fragments := parser.FeedText(text);
    var tail := parser.FlushText();
    assert "" + text == text;
    fragments := fragments + tail;
    WholeTextRun(initialReasoning, text);
    OneChunk(initialReasoning, text);
    reasoning, content := Join(fragments);
    JoinedIsSelected(fragments, true);
    JoinedIsSelected(fragments, false);
    reasoning, content := Strip(reasoning), Strip(content);
  }

  method Join(fragments: seq<Fragment>) returns (reasoning: string, content: string)
    ensures reasoning == Joined(fragments, true) && content == Joined(fragments, false)
  {
    reasoning, content := "", "";
    for i := 0 to |fragments|
      invariant reasoning + Joined(fragments[i..], true) == Joined(fragments, true)
      invariant content + Joined(fragments[i..], false) == Joined(fragments, false)
    {
      assert fragments[i..][0] == fragments[i] && fragments[i..][1..] == fragments[i + 1..];
      if fragments[i].reasoning {
        reasoning := reasoning + fragments[i].text;
      } else {
        content := content + fragments[i].text;
      }
    }
  }

  lemma OneChunk(initialReasoning: bool, text: string)
    ensures var fed := Feed(initialReasoning, text);
            Run(ParserState(initialReasoning, ""), [text]) ==
            fed.fragments + Piece(fed.state.inReasoning, fed.state.buffer)
  {
    hide Feed;
    var fed := Feed(initialReasoning, text);
    assert [text][1..] == [] && "" + text == text;
    assert Run(fed.state, []) == Piece(fed.state.inReasoning, fed.state.buffer);
  }

  lemma WholeTextRun(initialReasoning: bool, text: string)
    ensures var fed := Feed(initialReasoning, text);
            Tags(fed.fragments + Piece(fed.state.inReasoning, fed.state.buffer)) == Lex(initialReasoning, text)
  {
    StreamIsLexer(initialReasoning, [text]);
    var fed := Feed(initialReasoning, text);
    assert [text][1..] == [] && text + "" == text && "" + text == text;
    assert Run(fed.state, []) == Piece(fed.state.inReasoning, fed.state.buffer);
  }

  /** For every chunking, each streamed field is the batch field before stripping. */
  lemma StreamAgreesWithSplit(initialReasoning: bool, chunks: seq<string>, reasoning: bool)
    ensures Joined(Run(ParserState(initialReasoning, ""), chunks), reasoning)
            == Select(Lex(initialReasoning, Concat(chunks)), reasoning)
  {
    StreamIsLexer(initialReasoning, chunks);
    JoinedIsSelected(Run(ParserState(initialReasoning, ""), chunks), reasoning);
  }

  // ----- what the markers mean -----

  /** The text begins with one of the seven markers. */
  predicate OpensMarker(text: string) {
    || "<|channel>thought\n" <= text || "<|channel>analysis\n" <= text || "<think>" <= text
    || "<|channel>final\n" <= text || "<|channel>commentary\n" <= text || "</think>" <= text
    || "<channel|>" <= text
  }

  /** No marker begins within the first `n` characters. */
  ghost predicate PlainUpTo(text: string, n: nat)
    requires n <= |text|
  {
    forall i :: 0 <= i < n ==> !OpensMarker(text[i..])
  }

  lemma OccursOpens(text: string, i: nat)
    requires i <= |text| && Occurs(text, Table(), i)
    ensures OpensMarker(text[i..])
  {
    var ms := Table();
    var k :| 0 <= k < |ms| && At(text, i, ms[k]);
    assert text[i..][..|ms[k]|] == text[i..i + |ms[k]|];
    assert ms[k] <= text[i..];
    assert k == 0 || k == 1 || k == 2 || k == 3 || k == 4 || k == 5 || k == 6;
  }

  /** A text without a marker is text of the field the stream starts in, in every chunking. */
  lemma PlainTextStays(initialReasoning: bool, chunks: seq<string>, reasoning: bool)
    requires PlainUpTo(Concat(chunks), |Concat(chunks)|)
    ensures Joined(Run(ParserState(initialReasoning, ""), chunks), reasoning) ==
            if reasoning == initialReasoning then Concat(chunks) else ""
  {
    hide Run; hide Joined; hide Lex; hide Occurs; hide Table; hide OpensMarker; hide Tag; hide Select;
    var text := Concat(chunks);
    StreamAgreesWithSplit(initialReasoning, chunks, reasoning);
    forall i | 0 <= i < |text| ensures !Occurs(text + "", Table(), i) {
      assert text + "" == text;
      if Occurs(text, Table(), i) { OccursOpens(text, i); }
    }
    assert text + "" == text;
    LexPlain(initialReasoning, text, "");
    LexNothing();
    assert Tag(initialReasoning, text) + [] == Tag(initialReasoning, text);
    SelectTag(initialReasoning, text, reasoning);
  }

  lemma LexPastMarker(inReasoning: bool, plain: string, which: nat, rest: string)
    requires |Effects()| == |Table()| && which < |Table()| && PlainUpTo(plain + (Table()[which] + rest), |plain|)
    ensures Lex(inReasoning, plain + (Table()[which] + rest)) ==
            Tag(inReasoning, plain) + Lex(After(Effects()[which], inReasoning), rest)
  {
    hide Lex; hide Occurs; hide Table; hide Effects; hide OpensMarker; hide Tag; hide Headed; hide At; hide HeadMarker;
    hide After;
    var marker := Table()[which];
    var tail := marker + rest;
    MarkersAreHeaded();
    forall i | 0 <= i < |plain| ensures !Occurs(plain + tail, Table(), i) {
      if Occurs(plain + tail, Table(), i) { OccursOpens(plain + tail, i); }
    }
    LexPlain(inReasoning, plain, tail);
    forall k | 0 <= k < |Table()| ensures At(plain + tail, |plain|, Table()[k]) <==> k == which {
      AtShifts(plain, tail, 0, Table()[k]);
      AtStart(marker, rest);
      if At(tail, 0, Table()[k]) { OneMarkerAt(tail, 0, Table(), k, which); }
    }
    MarkerAtHead(plain, tail, which);
    MarkerFills(marker, rest, which);
    LexStep(inReasoning, tail, which);
    assert tail[|marker|..] == rest;
  }

  lemma AtStart(marker: string, rest: string)
    ensures At(marker + rest, 0, marker)
  {
  }

  lemma MarkerFills(marker: string, rest: string, which: nat)
    requires which < |Table()| && marker == Table()[which]
    ensures marker + rest != ""
  {
    MarkersAreHeaded();
  }

  /** What the first marker of a text does, whatever follows it and however both texts are
      chunked: the text before it belongs to the field the stream starts in, and the text
      behind it is read as a stream of its own. A thought or analysis opening and `<think>`
      start that one in the reasoning, a final or commentary opening and `</think>` in the
      content, and the bare channel end where the first one started. */
  lemma FirstMarkerDecides(initialReasoning: bool, chunks: seq<string>, plain: string, marker: string,
                           rest: seq<string>, field: bool)
    requires Concat(chunks) == plain + (marker + Concat(rest)) && PlainUpTo(Concat(chunks), |plain|)
    ensures marker in {"<|channel>thought\n", "<|channel>analysis\n", "<think>"} ==>
              Joined(Run(ParserState(initialReasoning, ""), chunks), field) ==
              (if field == initialReasoning then plain else "") + Joined(Run(ParserState(true, ""), rest), field)
    ensures marker in {"<|channel>final\n", "<|channel>commentary\n", "</think>"} ==>
              Joined(Run(ParserState(initialReasoning, ""), chunks), field) ==
              (if field == initialReasoning then plain else "") + Joined(Run(ParserState(false, ""), rest), field)
    ensures marker == "<channel|>" ==>
              Joined(Run(ParserState(initialReasoning, ""), chunks), field) ==
              (if field == initialReasoning then plain else "") +
              Joined(Run(ParserState(initialReasoning, ""), rest), field)
  {
    hide Run; hide Joined; hide Lex; hide Tag; hide Select; hide Headed; hide PlainUpTo; hide Concat;
    MarkersAreHeaded();
    var which :=
      if marker == "<|channel>thought\n" then 0 else if marker == "<|channel>analysis\n" then 1
      else if marker == "<|channel>final\n" then 2 else if marker == "<|channel>commentary\n" then 3
      else if marker == "<think>" then 4 else if marker == "</think>" then 5 else 6;
    if Table()[which] == marker {
      var next := After(Effects()[which], initialReasoning);
      LexPastMarker(initialReasoning, plain, which, Concat(rest));
      StreamAgreesWithSplit(initialReasoning, chunks, field);
      StreamAgreesWithSplit(next, rest, field);
      SelectConcat(Tag(initialReasoning, plain), Lex(next, Concat(rest)), field);
      SelectTag(initialReasoning, plain, field);
    }
  }

  ghost predicate NoAngle(text: string) {
    forall i :: 0 <= i < |text| ==> text[i] != '<'
  }

  lemma NoAngleIsPlain(plain: string, rest: string)
    requires NoAngle(plain)
    ensures PlainUpTo(plain + rest, |plain|)
  {
    forall i | 0 <= i < |plain| ensures !OpensMarker((plain + rest)[i..]) {
      assert (plain + rest)[i..][0] == plain[i];
    }
  }

  /** A thought in angle brackets: in every chunking its text is the reasoning and the text
      around it is the content. */
  lemma ThoughtIsReasoning(chunks: seq<string>, x: string, y: string, z: string)
    requires NoAngle(x) && NoAngle(y) && NoAngle(z)
    requires Concat(chunks) == x + ("<think>" + (y + ("</think>" + z)))
    ensures Joined(Run(ParserState(false, ""), chunks), true) == y
    ensures Joined(Run(ParserState(false, ""), chunks), false) == x + z
  {
    hide Run; hide Joined; hide NoAngle; hide PlainUpTo;
    var inside, behind := [y + ("</think>" + z)], [z];
    assert Concat(inside) == y + ("</think>" + z) && Concat(behind) == z by {
      assert inside[1..] == [] && behind[1..] == [] && z + "" == z && inside[0] + "" == inside[0];
    }
    NoAngleIsPlain(x, "<think>" + Concat(inside));
    NoAngleIsPlain(y, "</think>" + Concat(behind));
    NoAngleIsPlain(z, "");
    assert z + "" == z;
    forall field: bool
      ensures Joined(Run(ParserState(false, ""), chunks), field) == if field then y else x + z {
      FirstMarkerDecides(false, chunks, x, "<think>", inside, field);
      FirstMarkerDecides(true, inside, y, "</think>", behind, field);
      PlainTextStays(false, behind, field);
    }
  }
}
