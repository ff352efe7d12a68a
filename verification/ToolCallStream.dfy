/** Tool calls in a streamed answer. Complete call blocks are withheld from the visible
    content and parsed; the block parser itself is a parameter. */
module ToolCallStream {
  import opened Markers

  datatype Option<+T> = None | Some(value: T)

  /** What a block parser makes of a text: what stays visible, and the calls. */
  datatype Parsed<+C> = Parsed(visible: string, calls: seq<C>)

  type BlockParser<!C> = string -> Option<Parsed<C>>

  /** What the stream hands on: visible content, or the calls of one block. */
  datatype Emission<+C> = Visible(text: string) | Calls(calls: seq<C>)

  function Starts(): seq<string> { ["<tool_call>", "<|tool_call>"] }
  function Ends(): seq<string> { ["</tool_call>", "<tool_call|>"] }

  lemma StartsAreHeaded()
    ensures |Ends()| == |Starts()| && Headed(Starts()) && NonEmpty(Starts())
    ensures forall w :: 0 <= w < |Ends()| ==> Ends()[w] != ""
  {
    var ms := Starts();
    forall k | 0 <= k < |ms|
      ensures ms[k] != "" && ms[k][0] == '<'
      ensures forall j :: 0 < j < |ms[k]| ==> ms[k][j] != '<'
    {
      assert k == 0 || k == 1;
    }
    assert ms[0][1] == 't' && ms[1][1] == '|';
  }

  // ----- scanning one buffer -----

  datatype Event = Content(text: string) | Block(text: string)
  datatype Scanned = Scanned(buffer: string, events: seq<Event>)

  function Piece(text: string): seq<Event> {
    if text == "" then [] else [Content(text)]
  }

  function BlockEnd(text: string, which: nat): (r: int)
    requires which < |Starts()|
    ensures r == -1 || |Starts()[which]| + |Ends()[which]| <= r <= |text|
  {
    var end := Find(text, Ends()[which], |Starts()[which]|);
    if end == -1 then -1 else end + |Ends()[which]|
  }

  /** The loop of `feed`, leaving aside what the block parser says. */
  function Scan(buffer: string): Scanned
    decreases |buffer|
  {
    if buffer == "" then Scanned("", [])
    else
      var m := FirstMatch(buffer, Starts());
      if m.NoMatch? then
        var kept := |buffer| - Retained(buffer, Starts());
        Scanned(buffer[kept..], Piece(buffer[..kept]))
      else
        var tail := buffer[m.index..];
        var end := BlockEnd(tail, m.which);
        if end == -1 then Scanned(tail, Piece(buffer[..m.index]))
        else
          StartsAreHeaded();
          var rest := Scan(tail[end..]);
          Scanned(rest.buffer, Piece(buffer[..m.index]) + [Block(tail[..end])] + rest.events)
  }

  lemma ScanNothing()
    ensures Scan("") == Scanned("", [])
  {
  }

  lemma ScanStep(buffer: string)
    requires buffer != ""
    ensures |Ends()| == |Starts()|
    ensures var m := FirstMatch(buffer, Starts());
            m.NoMatch? ==>
              var kept := |buffer| - Retained(buffer, Starts());
              Scan(buffer) == Scanned(buffer[kept..], Piece(buffer[..kept]))
    ensures var m := FirstMatch(buffer, Starts());
            m.Match? ==>
              var tail := buffer[m.index..];
              var end := BlockEnd(tail, m.which);
              if end == -1 then Scan(buffer) == Scanned(tail, Piece(buffer[..m.index]))
              else
                0 < end <= |tail| &&
                var rest := Scan(tail[end..]);
                Scan(buffer) == Scanned(rest.buffer, Piece(buffer[..m.index]) + [Block(tail[..end])] + rest.events)
  {
    hide FirstMatch; hide Retained; hide At; hide Occurs; hide Starts; hide Ends; hide Headed; hide Find;
    StartsAreHeaded();
  }

  function Texts(events: seq<Event>): string {
    if events == [] then "" else events[0].text + Texts(events[1..])
  }

  lemma {:induction false} TextsConcat(a: seq<Event>, b: seq<Event>)
    ensures Texts(a + b) == Texts(a) + Texts(b)
  {
    if a == [] {
      assert a + b == b;
    } else {
      assert (a + b)[1..] == a[1..] + b;
      TextsConcat(a[1..], b);
    }
  }

  lemma TextsOfPiece(text: string)
    ensures Texts(Piece(text)) == text
  {
    if text != "" {
      assert Piece(text)[1..] == [];
    }
  }

  /** Scanning loses nothing: events and held buffer rebuild the scanned text. */
  lemma {:induction false} ScanRebuilds(buffer: string)
    ensures Texts(Scan(buffer).events) + Scan(buffer).buffer == buffer
    decreases |buffer|
  {
    hide FirstMatch; hide Retained; hide BlockEnd; hide Starts; hide Ends; hide Texts; hide Piece;
    hide At; hide Occurs; hide Pending; hide Scan;
    if buffer == "" {
      ScanNothing();
      NoTexts();
    } else {
      ScanStep(buffer);
      var m := FirstMatch(buffer, Starts());
      if m.NoMatch? {
        TextsOfPiece(buffer[..|buffer| - Retained(buffer, Starts())]);
      } else {
        var plain, tail := buffer[..m.index], buffer[m.index..];
        var end := BlockEnd(tail, m.which);
        TextsOfPiece(plain);
        if end != -1 {
          var rest := Scan(tail[end..]);
          ScanRebuilds(tail[end..]);
          TextsConcat(Piece(plain) + [Block(tail[..end])], rest.events);
          TextsConcat(Piece(plain), [Block(tail[..end])]);
          OneText(Block(tail[..end]));
          assert buffer == plain + (tail[..end] + tail[end..]);
        }
      }
    }
  }

  lemma NoTexts()
    ensures Texts([]) == ""
  {
  }

  lemma OneText(event: Event)
    ensures Texts([event]) == event.text
  {
    assert [event][1..] == [];
  }

  // ----- the reference segmentation of a whole text -----

  datatype Item = Char(c: char) | Call(block: string)
  datatype Segments = Segments(items: seq<Item>, residue: string)

  function Before(items: seq<Item>, rest: Segments): Segments {
    Segments(items + rest.items, rest.residue)
  }

  /** One pass over the whole text. A start marker opens a block that runs to the first
      matching end marker; a text that is an unfinished block, or may still become a start
      marker, is residue; every other character is content. */
  function Segment(text: string): Segments
    decreases |text|
  {
    if text == "" then Segments([], "")
    else
      var head := HeadMarker(text, Starts());
      if head.Match? then
        var end := BlockEnd(text, head.which);
        if end == -1 then Segments([], text)
        else
          StartsAreHeaded();
          Before([Call(text[..end])], Segment(text[end..]))
      else if Retained(text, Starts()) == |text| then Segments([], text)
      else Before([Char(text[0])], Segment(text[1..]))
  }

  function Chars(text: string): seq<Item> {
    if text == "" then [] else [Char(text[0])] + Chars(text[1..])
  }

  function Items(events: seq<Event>): seq<Item> {
    if events == [] then []
    else (match events[0] case Content(text) => Chars(text) case Block(text) => [Call(text)]) + Items(events[1..])
  }

  lemma {:induction false} ItemsConcat(a: seq<Event>, b: seq<Event>)
    ensures Items(a + b) == Items(a) + Items(b)
  {
    if a == [] {
      assert a + b == b;
    } else {
      assert (a + b)[1..] == a[1..] + b;
      ItemsConcat(a[1..], b);
    }
  }

  lemma ItemsOfPiece(text: string)
    ensures Items(Piece(text)) == Chars(text)
  {
    if text != "" {
      assert Piece(text)[1..] == [];
    }
  }

  lemma ItemsOfBlock(text: string)
    ensures Items([Block(text)]) == [Call(text)]
  {
    assert [Block(text)][1..] == [];
  }

  /** Text in which no start marker begins is content, character by character. */
  lemma {:induction false} SegmentPlain(plain: string, rest: string)
    requires forall i :: 0 <= i < |plain| ==>
               !Occurs(plain + rest, Starts(), i) && !Pending(plain + rest, Starts(), i)
    ensures Segment(plain + rest) == Before(Chars(plain), Segment(rest))
    decreases |plain|
  {
    hide At; hide Occurs; hide Pending; hide HeadMarker; hide Retained; hide BlockEnd; hide Starts;
    if plain == "" {
      assert plain + rest == rest;
    } else {
      var text := plain + rest;
      assert text[1..] == plain[1..] + rest;
      forall i | 0 <= i < |plain[1..]|
        ensures !Occurs(plain[1..] + rest, Starts(), i) && !Pending(plain[1..] + rest, Starts(), i)
      {
        assert text == [text[0]] + text[1..];
        OccursShifts([text[0]], text[1..], Starts(), i);
        PendingShifts([text[0]], text[1..], Starts(), i);
      }
      SegmentPlain(plain[1..], rest);
      NoHeadMarker(text, Starts());
    }
  }

  /** One scan, whatever text `later` is still to come: its events are the first items of the
      whole text, and the held buffer stands for the rest. */
  lemma {:induction false} ScanFollowsSegment(buffer: string, later: string)
    ensures var scan := Scan(buffer);
            Segment(buffer + later) == Before(Items(scan.events), Segment(scan.buffer + later))
    decreases |buffer|
  {
    hide FirstMatch; hide Retained; hide At; hide Occurs; hide Pending; hide HeadMarker;
    hide BlockEnd; hide Starts; hide Ends; hide Segment; hide Items; hide Headed; hide NonEmpty; hide Scan; hide Piece;
    if buffer == "" {
      ScanNothing();
      NoItems();
    } else {
      StartsAreHeaded();
      ScanStep(buffer);
      var m := FirstMatch(buffer, Starts());
      if m.NoMatch? {
        var kept := |buffer| - Retained(buffer, Starts());
        var plain, held := buffer[..kept], buffer[kept..];
        assert buffer + later == plain + (held + later);
        forall i | 0 <= i < kept
          ensures !Occurs(plain + (held + later), Starts(), i) && !Pending(plain + (held + later), Starts(), i)
        {
          RetainedDecides(buffer, later, Starts(), i);
        }
        SegmentPlain(plain, held + later);
        ItemsOfPiece(plain);
      } else {
        var plain, tail := buffer[..m.index], buffer[m.index..];
        EarliestStays(buffer, later, Starts());
        assert buffer + later == plain + (tail + later);
        SegmentPlain(plain, tail + later);
        ItemsOfPiece(plain);
        var end := BlockEnd(tail, m.which);
        if end != -1 {
          var block, rest := tail[..end], tail[end..];
          StartAtHead(plain, tail + later, m.which);
          SegmentBlock(tail, later, m.which);
          ScanFollowsSegment(rest, later);
          ItemsOfBlockScan(plain, block, Scan(rest).events);
        }
      }
    }
  }

  lemma ItemsOfBlockScan(plain: string, block: string, events: seq<Event>)
    ensures Items(Piece(plain) + [Block(block)] + events) == Chars(plain) + ([Call(block)] + Items(events))
  {
    ItemsConcat(Piece(plain) + [Block(block)], events);
    ItemsConcat(Piece(plain), [Block(block)]);
    ItemsOfPiece(plain);
    ItemsOfBlock(block);
  }

  lemma NoItems()
    ensures Items([]) == []
  {
  }

  lemma StartAtHead(plain: string, tail: string, which: nat)
    requires forall k :: 0 <= k < |Starts()| ==> (At(plain + tail, |plain|, Starts()[k]) <==> k == which)
    requires which < |Starts()|
    ensures HeadMarker(tail, Starts()) == Match(0, which)
  {
    hide At; hide HeadMarker; hide Occurs; hide Starts;
    forall k | 0 <= k < |Starts()| ensures At(tail, 0, Starts()[k]) <==> k == which {
      AtShifts(plain, tail, 0, Starts()[k]);
    }
    OccursFrom(tail, Starts(), 0, which);
  }

  lemma SegmentAtStart(text: string, which: nat)
    requires which < |Starts()| && text != "" && HeadMarker(text, Starts()) == Match(0, which)
    ensures var end := BlockEnd(text, which);
            end != -1 ==> Segment(text) == Before([Call(text[..end])], Segment(text[end..]))
  {
    hide HeadMarker; hide BlockEnd; hide Starts; hide Ends; hide Headed; hide NonEmpty;
  }

  lemma SegmentBlock(tail: string, later: string, which: nat)
    requires which < |Starts()| && HeadMarker(tail + later, Starts()) == Match(0, which)
    requires BlockEnd(tail, which) != -1
    ensures var end := BlockEnd(tail, which);
            Segment(tail + later) == Before([Call(tail[..end])], Segment(tail[end..] + later))
  {
    hide HeadMarker; hide Find; hide At; hide Starts; hide Ends; hide Headed; hide NonEmpty; hide Segment;
    StartsAreHeaded();
    SegmentAtStart(tail + later, which);
    var end := BlockEnd(tail, which);
    FindStays(tail, later, Ends()[which], |Starts()[which]|);
    assert (tail + later)[..end] == tail[..end];
    assert (tail + later)[end..] == tail[end..] + later;
  }

  /** What a scan holds back is residue: no content and no complete block. */
  lemma {:induction false} HeldIsResidue(buffer: string)
    ensures Segment(Scan(buffer).buffer) == Segments([], Scan(buffer).buffer)
    decreases |buffer|
  {
    hide FirstMatch; hide Retained; hide At; hide Occurs; hide Pending; hide HeadMarker;
    hide BlockEnd; hide Starts; hide Headed; hide NonEmpty;
    if buffer != "" {
      StartsAreHeaded();
      var m := FirstMatch(buffer, Starts());
      if m.NoMatch? {
        var held := buffer[|buffer| - Retained(buffer, Starts())..];
        RetainedDecidesMatch(buffer, "", Starts());
        assert held + "" == held && buffer + "" == buffer;
        NoHeadMarker(held, Starts());
      } else {
        var plain, tail := buffer[..m.index], buffer[m.index..];
        var end := BlockEnd(tail, m.which);
        if end == -1 {
          EarliestStays(buffer, "", Starts());
          assert buffer + "" == buffer == plain + tail;
          StartAtHead(plain, tail, m.which);
        } else {
          HeldIsResidue(tail[end..]);
        }
      }
    }
  }

  // ----- parsing the blocks -----

  function Join<T>(a: Option<seq<T>>, b: Option<seq<T>>): Option<seq<T>> {
    if a.Some? && b.Some? then Some(a.value + b.value) else None
  }

  /** One event handed to the block parser; `None` is the parser's exception. */
  function ParseEvent<C>(parse: BlockParser<C>, event: Event): Option<seq<Emission<C>>> {
    match event
    case Content(text) => Some([Visible(text)])
    case Block(text) =>
      match parse(text)
      case None => None
      case Some(parsed) => Some([Calls(parsed.calls)])
  }

  function ParseEvents<C>(parse: BlockParser<C>, events: seq<Event>): Option<seq<Emission<C>>> {
    if events == [] then Some([]) else Join(ParseEvent(parse, events[0]), ParseEvents(parse, events[1..]))
  }

  lemma {:induction false} ParseEventsConcat<C>(parse: BlockParser<C>, a: seq<Event>, b: seq<Event>)
    ensures ParseEvents(parse, a + b) == Join(ParseEvents(parse, a), ParseEvents(parse, b))
  {
    if a == [] {
      assert a + b == b;
      assert ParseEvents(parse, b).Some? ==> [] + ParseEvents(parse, b).value == ParseEvents(parse, b).value;
    } else {
      assert (a + b)[1..] == a[1..] + b;
      ParseEventsConcat(parse, a[1..], b);
      var head := ParseEvent(parse, a[0]);
      var x, y := ParseEvents(parse, a[1..]), ParseEvents(parse, b);
      assert head.Some? && x.Some? && y.Some? ==> head.value + (x.value + y.value) == (head.value + x.value) + y.value;
    }
  }

  /** The events from the first unparsable block on. */
  function Unparsed<C>(parse: BlockParser<C>, events: seq<Event>): seq<Event> {
    if events == [] || ParseEvent(parse, events[0]).None? then events else Unparsed(parse, events[1..])
  }

  lemma {:induction false} UnparsedSkips<C>(parse: BlockParser<C>, done: seq<Event>, bad: Event, rest: seq<Event>)
    requires ParseEvents(parse, done).Some? && ParseEvent(parse, bad).None?
    ensures ParseEvents(parse, done + [bad] + rest).None?
    ensures Unparsed(parse, done + [bad] + rest) == [bad] + rest
  {
    if done == [] {
      assert done + [bad] + rest == [bad] + rest;
    } else {
      assert (done + [bad] + rest)[1..] == done[1..] + [bad] + rest;
      UnparsedSkips(parse, done[1..], bad, rest);
    }
  }

  function FlushParsed<C>(parse: BlockParser<C>, buffer: string): Option<seq<Emission<C>>> {
    if buffer == "" then Some([])
    else
      match parse(buffer)
      case None => None
      case Some(parsed) =>
        Some((if parsed.visible == "" then [] else [Visible(parsed.visible)]) +
             (if parsed.calls == [] then [] else [Calls(parsed.calls)]))
  }

  /** The mutable parser; `FeedText` and `FlushText` return `None` where the source raises. */
  class ToolCallStreamParser<!C(==)> {
    const parse: BlockParser<C>
    var buffer: string

    constructor (parse: BlockParser<C>)
      ensures this.parse == parse && buffer == ""
    {
      this.parse := parse;
      buffer := "";
    }

    method FeedText(text: string) returns (r: Option<seq<Emission<C>>>)
      modifies this
      ensures var scan := Scan(old(buffer) + text);
              r == ParseEvents(parse, scan.events) &&
              buffer == if r.Some? then scan.buffer else Texts(Unparsed(parse, scan.events)) + scan.buffer
    {
      hide *;
      buffer := buffer + text;
      ghost var whole, done: seq<Event> := Scan(buffer), [];
      var emitted: seq<Emission<C>> := [];
      ParseNothing(parse);
      while buffer != ""
        invariant whole == Scanned(Scan(buffer).buffer, done + Scan(buffer).events)
        invariant ParseEvents(parse, done) == Some(emitted)
        decreases |buffer|
      {
        ScanStep(buffer);
        ghost var was := buffer;
        var m := FirstMatch(buffer, Starts());
        if m.NoMatch? {
          var retained := Retained(buffer, Starts());
          var content := buffer[..|buffer| - retained];
          ParsePiece(parse, done, content);
          if content != "" {
            emitted := emitted + [Visible(content)];
          }
          buffer := buffer[|buffer| - retained..];
          return Some(emitted);
        }
        ghost var plain := buffer[..m.index];
        ParsePiece(parse, done, plain);
        if m.index > 0 {
          emitted := emitted + [Visible(buffer[..m.index])];
          buffer := buffer[m.index..];
        }
        assert buffer == was[m.index..];
        var end := BlockEnd(buffer, m.which);
        if end == -1 {
          return Some(emitted);
        }
        var block := buffer[..end];
        assert done + (Piece(plain) + [Block(block)] + Scan(buffer[end..]).events)
            == done + Piece(plain) + [Block(block)] + Scan(buffer[end..]).events;
        var parsed := parse(block);
        if parsed.None? {
          BadBlock(parse, done + Piece(plain), buffer, end);
          return None;
        }
        ParseBlock(parse, done + Piece(plain), block);
        emitted := emitted + [Calls(parsed.value.calls)];
        buffer := buffer[end..];
        done := done + Piece(plain) + [Block(block)];
      }
      ScanNothing();
      assert done + [] == done;
      return Some(emitted);
    }

    method FlushText() returns (r: Option<seq<Emission<C>>>)
      modifies this
      ensures r == FlushParsed(parse, old(buffer)) && buffer == ""
    {
      if buffer == "" {
        return Some([]);
      }
      var buffered := buffer;
      buffer := "";
      var parsed := parse(buffered);
      if parsed.None? {
        return None;
      }
      var emitted: seq<Emission<C>> := [];
      if parsed.value.visible != "" {
        emitted := [Visible(parsed.value.visible)];
      }
      if parsed.value.calls != [] {
        emitted := emitted + [Calls(parsed.value.calls)];
      } else {
        assert emitted == emitted + [];
      }
      return Some(emitted);
    }
  }

  lemma ParseNothing<C>(parse: BlockParser<C>)
    ensures ParseEvents(parse, []) == Some([])
  {
  }

  lemma ParsePiece<C>(parse: BlockParser<C>, done: seq<Event>, text: string)
    requires ParseEvents(parse, done).Some?
    ensures ParseEvents(parse, done + Piece(text))
            == Some(if text == "" then ParseEvents(parse, done).value
                    else ParseEvents(parse, done).value + [Visible(text)])
  {
    ParseEventsConcat(parse, done, Piece(text));
    if text == "" {
      assert done + Piece(text) == done;
    } else {
      assert Piece(text)[1..] == [];
      assert [Visible(text)] + ParseEvents(parse, []).value == [Visible(text)];
    }
  }

  lemma ParseBlock<C>(parse: BlockParser<C>, done: seq<Event>, text: string)
    requires ParseEvents(parse, done).Some? && parse(text).Some?
    ensures ParseEvents(parse, done + [Block(text)])
            == Some(ParseEvents(parse, done).value + [Calls(parse(text).value.calls)])
  {
    ParseEventsConcat(parse, done, [Block(text)]);
    assert [Block(text)][1..] == [];
    assert [Calls(parse(text).value.calls)] + ParseEvents(parse, []).value == [Calls(parse(text).value.calls)];
  }

  lemma BadBlock<C>(parse: BlockParser<C>, done: seq<Event>, tail: string, end: nat)
    requires end <= |tail| && ParseEvents(parse, done).Some? && parse(tail[..end]).None?
    ensures var rest := Scan(tail[end..]);
            var events := done + [Block(tail[..end])] + rest.events;
            ParseEvents(parse, events).None? && Texts(Unparsed(parse, events)) + rest.buffer == tail
  {
    hide Scan; hide Texts; hide Unparsed; hide ParseEvents;
    var rest, bad := Scan(tail[end..]), Block(tail[..end]);
    UnparsedSkips(parse, done, bad, rest.events);
    TextsConcat([bad], rest.events);
    OneText(bad);
    ScanRebuilds(tail[end..]);
    assert tail == tail[..end] + tail[end..];
  }

  // ----- whole runs -----

  /** Everything handed on for `chunks` followed by a flush; `None` if the parser ever raises. */
  function Run<C>(parse: BlockParser<C>, buffer: string, chunks: seq<string>): Option<seq<Emission<C>>>
    decreases |chunks|
  {
    if chunks == [] then FlushParsed(parse, buffer)
    else
      var scan := Scan(buffer + chunks[0]);
      Join(ParseEvents(parse, scan.events), Run(parse, scan.buffer, chunks[1..]))
  }

  /** Emissions with the visible content spread into characters, so that two streams are
      equal exactly when their merged content and calls are. */
  datatype Delivered<+C> = Character(c: char) | ToolCalls(calls: seq<C>)

  function Spread<C>(text: string): seq<Delivered<C>> {
    if text == "" then [] else [Character(text[0])] + Spread(text[1..])
  }

  function Deliver<C>(emissions: seq<Emission<C>>): seq<Delivered<C>> {
    if emissions == [] then []
    else
      (match emissions[0] case Visible(text) => Spread(text) case Calls(calls) => [ToolCalls(calls)]) +
      Deliver(emissions[1..])
  }

  function Delivery<C>(emissions: Option<seq<Emission<C>>>): Option<seq<Delivered<C>>> {
    if emissions.Some? then Some(Deliver(emissions.value)) else None
  }

  lemma {:induction false} DeliverConcat<C>(a: seq<Emission<C>>, b: seq<Emission<C>>)
    ensures Deliver(a + b) == Deliver(a) + Deliver(b)
  {
    if a == [] {
      assert a + b == b;
    } else {
      assert (a + b)[1..] == a[1..] + b;
      DeliverConcat(a[1..], b);
    }
  }

  lemma DeliveryJoin<C>(a: Option<seq<Emission<C>>>, b: Option<seq<Emission<C>>>)
    ensures Delivery(Join(a, b)) == Join(Delivery(a), Delivery(b))
  {
    if a.Some? && b.Some? { DeliverConcat(a.value, b.value); }
  }

  function ParseItem<C>(parse: BlockParser<C>, item: Item): Option<seq<Delivered<C>>> {
    match item
    case Char(c) => Some([Character(c)])
    case Call(block) =>
      match parse(block)
      case None => None
      case Some(parsed) => Some([ToolCalls(parsed.calls)])
  }

  function ParseItems<C>(parse: BlockParser<C>, items: seq<Item>): Option<seq<Delivered<C>>> {
    if items == [] then Some([]) else Join(ParseItem(parse, items[0]), ParseItems(parse, items[1..]))
  }

  lemma JoinAssociates<T>(a: Option<seq<T>>, b: Option<seq<T>>, c: Option<seq<T>>)
    ensures Join(a, Join(b, c)) == Join(Join(a, b), c)
    ensures Join(Some([]), a) == a && Join(a, Some([])) == a
  {
    if a.Some? && b.Some? && c.Some? {
      assert a.value + (b.value + c.value) == (a.value + b.value) + c.value;
    }
    if a.Some? {
      assert [] + a.value == a.value == a.value + [];
    }
  }

  lemma {:induction false} ParseItemsConcat<C>(parse: BlockParser<C>, a: seq<Item>, b: seq<Item>)
    ensures ParseItems(parse, a + b) == Join(ParseItems(parse, a), ParseItems(parse, b))
  {
    if a == [] {
      assert a + b == b;
      JoinAssociates(ParseItems(parse, b), None, None);
    } else {
      assert (a + b)[1..] == a[1..] + b;
      ParseItemsConcat(parse, a[1..], b);
      JoinAssociates(ParseItem(parse, a[0]), ParseItems(parse, a[1..]), ParseItems(parse, b));
    }
  }

  lemma {:induction false} ParseItemsOfChars<C>(parse: BlockParser<C>, text: string)
    ensures ParseItems(parse, Chars(text)) == Some(Spread(text))
  {
    if text != "" {
      ParseItemsOfChars(parse, text[1..]);
      assert Chars(text)[1..] == Chars(text[1..]);
    }
  }

  lemma ParseItemsOfEvent<C>(parse: BlockParser<C>, event: Event)
    ensures ParseItems(parse, Items([event])) == Delivery(ParseEvent(parse, event))
  {
    assert [event][1..] == [];
    match event
    case Content(text) =>
      assert Items([event]) == Chars(text);
      ParseItemsOfChars(parse, text);
      var one: Emission<C> := Visible(text);
      assert [one][1..] == [] && Deliver([one]) == Spread(text);
    case Block(text) =>
      assert Items([event]) == [Call(text)] && [Call(text)][1..] == [];
      JoinAssociates(ParseItem(parse, Call(text)), None, None);
      if parse(text).Some? {
        var one := Calls(parse(text).value.calls);
        assert [one][1..] == [] && Deliver([one]) == [ToolCalls(parse(text).value.calls)];
      }
  }

  /** Parsing the events of a scan and parsing the items of the reference deliver the same. */
  lemma {:induction false} EventsDeliverItems<C>(parse: BlockParser<C>, events: seq<Event>)
    ensures Delivery(ParseEvents(parse, events)) == ParseItems(parse, Items(events))
  {
    if events != [] {
      hide ParseItems; hide ParseEvent;
      assert events == [events[0]] + events[1..];
      ItemsConcat([events[0]], events[1..]);
      ParseItemsConcat(parse, Items([events[0]]), Items(events[1..]));
      ParseItemsOfEvent(parse, events[0]);
      EventsDeliverItems(parse, events[1..]);
      DeliveryJoin(ParseEvent(parse, events[0]), ParseEvents(parse, events[1..]));
    }
  }

  /** What the whole text delivers, with no regard to chunks. */
  function WholeText<C>(parse: BlockParser<C>, text: string): Option<seq<Delivered<C>>> {
    var segments := Segment(text);
    Join(ParseItems(parse, segments.items), Delivery(FlushParsed(parse, segments.residue)))
  }

  lemma {:induction false} RunFollowsSegments<C>(parse: BlockParser<C>, buffer: string, chunks: seq<string>)
    requires Segment(buffer) == Segments([], buffer)
    ensures Delivery(Run(parse, buffer, chunks)) == WholeText(parse, buffer + Concat(chunks))
    decreases |chunks|
  {
    hide Segment; hide Scan; hide Items; hide ParseItems; hide ParseEvents; hide FlushParsed; hide Delivery; hide Join;
    if chunks == [] {
      assert buffer + Concat(chunks) == buffer;
      NothingParsed(parse);
      JoinAssociates(Delivery(FlushParsed(parse, buffer)), None, None);
    } else {
      var scan, later := Scan(buffer + chunks[0]), Concat(chunks[1..]);
      assert buffer + Concat(chunks) == (buffer + chunks[0]) + later;
      ScanFollowsSegment(buffer + chunks[0], later);
      HeldIsResidue(buffer + chunks[0]);
      RunFollowsSegments(parse, scan.buffer, chunks[1..]);
      EventsDeliverItems(parse, scan.events);
      DeliveryJoin(ParseEvents(parse, scan.events), Run(parse, scan.buffer, chunks[1..]));
      var rest := Segment(scan.buffer + later);
      ParseItemsConcat(parse, Items(scan.events), rest.items);
      JoinAssociates(ParseItems(parse, Items(scan.events)), ParseItems(parse, rest.items),
                     Delivery(FlushParsed(parse, rest.residue)));
    }
  }

  lemma NothingParsed<C>(parse: BlockParser<C>)
    ensures ParseItems(parse, []) == Some([])
  {
  }

  /** For every way of cutting a text into chunks, content, call blocks and the residue handed
      to the flush are those of the whole text, and the stream raises exactly when that does. */
  lemma StreamIsSegmentation<C>(parse: BlockParser<C>, chunks: seq<string>)
    ensures Delivery(Run(parse, "", chunks)) == WholeText(parse, Concat(chunks))
  {
    RunFollowsSegments(parse, "", chunks);
    assert "" + Concat(chunks) == Concat(chunks);
  }

  // ----- what the segmentation means -----

  function ItemTexts(items: seq<Item>): string {
    if items == [] then ""
    else (match items[0] case Char(c) => [c] case Call(block) => block) + ItemTexts(items[1..])
  }

  /** Content, blocks and residue, in order, rebuild the text. */
  lemma {:induction false} SegmentsRebuild(text: string)
    ensures ItemTexts(Segment(text).items) + Segment(text).residue == text
    decreases |text|
  {
    hide HeadMarker; hide Retained; hide BlockEnd; hide Starts; hide Ends; hide At; hide Occurs; hide Headed;
    hide NonEmpty; hide ItemTexts;
    NoItemTexts();
    if text != "" {
      var head := HeadMarker(text, Starts());
      if head.Match? {
        var end := BlockEnd(text, head.which);
        if end != -1 {
          StartsAreHeaded();
          SegmentsRebuild(text[end..]);
          FirstItemText(Call(text[..end]), Segment(text[end..]).items);
          assert text == text[..end] + text[end..];
        }
      } else if Retained(text, Starts()) != |text| {
        SegmentsRebuild(text[1..]);
        FirstItemText(Char(text[0]), Segment(text[1..]).items);
        assert text == [text[0]] + text[1..];
      }
    }
  }

  lemma NoItemTexts()
    ensures ItemTexts([]) == ""
  {
  }

  lemma FirstItemText(item: Item, items: seq<Item>)
    ensures ItemTexts([item] + items) == (if item.Char? then [item.c] else item.block) + ItemTexts(items)
  {
    assert ([item] + items)[1..] == items;
  }

  /** A complete block runs from a start marker to the first matching end marker behind it. */
  ghost predicate CompleteBlock(block: string, which: nat)
    requires which < |Starts()|
  {
    At(block, 0, Starts()[which]) && BlockEnd(block, which) == |block|
  }

  /** Only complete blocks are handed to the parser as calls. */
  lemma {:induction false} CallsAreCompleteBlocks(text: string, i: nat)
    requires i < |Segment(text).items| && Segment(text).items[i].Call?
    ensures exists w: nat :: w < |Starts()| && CompleteBlock(Segment(text).items[i].block, w)
    decreases |text|
  {
    hide HeadMarker; hide Retained; hide Starts; hide Ends; hide At; hide Occurs; hide Pending;
    hide Headed; hide NonEmpty; hide BlockEnd; hide CompleteBlock;
    var head := HeadMarker(text, Starts());
    StartsAreHeaded();
    if head.Match? {
      var end := BlockEnd(text, head.which);
      if i == 0 {
        BlockIsComplete(text, head.which);
      } else {
        CallsAreCompleteBlocks(text[end..], i - 1);
      }
    } else {
      CallsAreCompleteBlocks(text[1..], i - 1);
    }
  }

  lemma BlockIsComplete(text: string, which: nat)
    requires which < |Starts()| && At(text, 0, Starts()[which]) && BlockEnd(text, which) != -1
    ensures CompleteBlock(text[..BlockEnd(text, which)], which)
  {
    hide At; hide Find; hide Starts; hide Ends; hide Headed; hide NonEmpty;
    StartsAreHeaded();
    var end, marker, from := BlockEnd(text, which), Ends()[which], |Starts()[which]|;
    var block, rest := text[..end], text[end..];
    assert text == block + rest;
    var f := Find(text, marker, from);
    AtFits(text, f, marker);
    AtExtends(block, rest, f, marker);
    AtExtends(block, rest, 0, Starts()[which]);
    var g := Find(block, marker, from);
    AtFits(block, g, marker);
    AtExtends(block, rest, g, marker);
  }

  // ----- what the boundaries mean -----

  /** The two spellings of a call block. */
  predicate IsBoundary(open: string, close: string) {
    (open == "<tool_call>" && close == "</tool_call>") || (open == "<|tool_call>" && close == "<tool_call|>")
  }

  /** No start marker begins within the first `n` characters. */
  ghost predicate PlainUpTo(text: string, n: nat)
    requires n <= |text|
  {
    forall i :: 0 <= i < n ==> !("<tool_call>" <= text[i..]) && !("<|tool_call>" <= text[i..])
  }

  /** `marker` begins nowhere in `text` before `n`. */
  ghost predicate NotBefore(text: string, marker: string, n: nat)
    requires n <= |text|
  {
    forall i :: 0 <= i < n ==> !(marker <= text[i..])
  }

  lemma AtIsPrefix(text: string, i: nat, marker: string)
    requires i <= |text|
    ensures At(text, i, marker) <==> marker <= text[i..]
  {
    if i + |marker| <= |text| {
      assert text[i..][..|marker|] == text[i..i + |marker|];
    }
  }

  lemma {:induction false} SpreadIs<C>(text: string)
    ensures |Spread<C>(text)| == |text| && forall i :: 0 <= i < |text| ==> Spread<C>(text)[i] == Character(text[i])
  {
    if text != "" {
      SpreadIs<C>(text[1..]);
      assert Spread<C>(text) == [Character(text[0])] + Spread<C>(text[1..]);
    }
  }

  lemma NothingStarts(text: string, n: nat, i: nat)
    requires i < n <= |text| && PlainUpTo(text, n)
    ensures !Occurs(text, Starts(), i)
  {
    forall k | 0 <= k < |Starts()| ensures !At(text, i, Starts()[k]) {
      AtIsPrefix(text, i, Starts()[k]);
      assert Starts()[k] == "<tool_call>" || Starts()[k] == "<|tool_call>";
    }
  }

  /** The first start marker ends the content before it. */
  lemma ContentUpToStart(plain: string, tail: string, which: nat)
    requires which < |Starts()| && Starts()[which] <= tail && PlainUpTo(plain + tail, |plain|)
    ensures HeadMarker(tail, Starts()) == Match(0, which)
    ensures Segment(plain + tail) == Before(Chars(plain), Segment(tail))
  {
    hide Segment; hide HeadMarker; hide Starts; hide Occurs; hide Pending; hide FirstMatch; hide At; hide Headed;
    hide PlainUpTo; hide Chars;
    StartsAreHeaded();
    var text := plain + tail;
    assert text[|plain|..] == tail;
    AtIsPrefix(text, |plain|, Starts()[which]);
    OccursFrom(text, Starts(), |plain|, which);
    forall i | 0 <= i < |plain| ensures !Occurs(text, Starts(), i) {
      NothingStarts(text, |plain|, i);
    }
    var m := FirstMatch(text, Starts());
    assert m.index >= |plain| by { NotNegative(text, Starts(), m.index); }
    OneMarkerAt(text, |plain|, Starts(), which, m.which);
    EarliestStays(text, "", Starts());
    assert text + "" == text;
    SegmentPlain(plain, tail);
    StartAtHead(plain, tail, which);
  }

  lemma NotNegative(text: string, markers: seq<string>, i: int)
    requires Occurs(text, markers, i)
    ensures i >= 0
  {
  }

  /** The end of a block is the first end marker behind its start marker. */
  lemma BlockEndIs(open: string, body: string, close: string, rest: string, which: nat)
    requires which < |Starts()| && |Ends()| == |Starts()| && open == Starts()[which] && close == Ends()[which]
    requires NotBefore(body + close, close, |body|)
    ensures BlockEnd(open + (body + (close + rest)), which) == |open| + |body| + |close|
  {
    hide Starts; hide Ends; hide Find; hide At;
    var text, at := open + (body + (close + rest)), |open| + |body|;
    assert text[at..][..|close|] == close;
    AtIsPrefix(text, at, close);
    var found := Find(text, close, |open|);
    var i := found - |open|;
    if i <= |body| {
      AtShifts(open, body + (close + rest), i, close);
      AtIsPrefix(body + (close + rest), i, close);
      PrefixFits(body + close, rest, i, close);
      assert body + (close + rest) == body + close + rest;
    }
  }

  /** A marker that begins in the body would end within the body and the end marker. */
  lemma PrefixFits(text: string, rest: string, i: nat, marker: string)
    requires i + |marker| <= |text|
    ensures marker <= (text + rest)[i..] <==> marker <= text[i..]
  {
    if marker <= (text + rest)[i..] {
      assert text[i..][..|marker|] == (text + rest)[i..][..|marker|];
    }
    if marker <= text[i..] {
      assert (text + rest)[i..][..|marker|] == text[i..][..|marker|];
    }
  }

  function WhichStart(open: string): (w: nat)
    requires open == "<tool_call>" || open == "<|tool_call>"
    ensures w < |Starts()| && Starts()[w] == open && |Ends()| == |Starts()|
    ensures forall close :: IsBoundary(open, close) ==> Ends()[w] == close
  {
    if open == "<tool_call>" then 0 else 1
  }

  lemma SegmentsOfBlock(plain: string, open: string, body: string, close: string, behind: string)
    requires IsBoundary(open, close) && NotBefore(body + close, close, |body|)
    requires PlainUpTo(plain + (open + (body + (close + behind))), |plain|)
    ensures Segment(plain + (open + (body + (close + behind)))) ==
            Before(Chars(plain), Before([Call(open + body + close)], Segment(behind)))
  {
    hide Segment; hide HeadMarker; hide Starts; hide Ends; hide PlainUpTo; hide NotBefore; hide BlockEnd; hide Chars;
    var w := WhichStart(open);
    var tail, block := open + (body + (close + behind)), open + body + close;
    assert open <= tail;
    ContentUpToStart(plain, tail, w);
    BlockEndIs(open, body, close, behind, w);
    assert tail == block + behind && tail[..|block|] == block && tail[|block|..] == behind;
    SegmentAtStart(tail, w);
  }

  /** The first complete block of a text, whatever follows it and however both texts are
      chunked: the text before it is content, its calls are delivered whole or the stream
      raises, and the text behind it is read as a stream of its own. */
  lemma FirstBlockIsDelivered<C>(parse: BlockParser<C>, chunks: seq<string>, plain: string, open: string, body: string,
                                 close: string, rest: seq<string>)
    requires IsBoundary(open, close) && NotBefore(body + close, close, |body|)
    requires Concat(chunks) == plain + (open + (body + (close + Concat(rest)))) && PlainUpTo(Concat(chunks), |plain|)
    ensures var (all, behind) := (Delivery(Run(parse, "", chunks)), Delivery(Run(parse, "", rest)));
            && (all.Some? <==> parse(open + body + close).Some? && behind.Some?)
            && (all.Some? ==>
                  all.value == Spread(plain) + [ToolCalls(parse(open + body + close).value.calls)] + behind.value)
  {
    hide Run; hide Segment; hide IsBoundary; hide PlainUpTo; hide NotBefore; hide Spread; hide Delivery;
    hide ParseItems; hide FlushParsed; hide Concat; hide Chars; hide Join;
    var block, segments := open + body + close, Segment(Concat(rest));
    SegmentsOfBlock(plain, open, body, close, Concat(rest));
    StreamIsSegmentation(parse, chunks);
    StreamIsSegmentation(parse, rest);
    BlockDelivers(parse, plain, block, segments.items, Delivery(FlushParsed(parse, segments.residue)));
  }

  lemma BlockDelivers<C>(parse: BlockParser<C>, plain: string, block: string, items: seq<Item>,
                         residue: Option<seq<Delivered<C>>>)
    ensures var all := Join(ParseItems(parse, Chars(plain) + ([Call(block)] + items)), residue);
            var behind := Join(ParseItems(parse, items), residue);
            && (all.Some? <==> parse(block).Some? && behind.Some?)
            && (all.Some? ==>
                  all.value == Spread(plain) + [ToolCalls(parse(block).value.calls)] + behind.value)
  {
    hide Spread; hide ParseItems; hide Chars; hide Join;
    ParseItemsConcat(parse, Chars(plain), [Call(block)] + items);
    ParseItemsConcat(parse, [Call(block)], items);
    ParseItemsOfChars(parse, plain);
    OneCall(parse, block);
    JoinFour(Some(Spread(plain)), ParseItems(parse, [Call(block)]), ParseItems(parse, items), residue);
  }

  lemma OneCall<C>(parse: BlockParser<C>, block: string)
    ensures ParseItems(parse, [Call(block)]) ==
            if parse(block).None? then None else Some([ToolCalls(parse(block).value.calls)])
  {
    assert [Call(block)][1..] == [];
    JoinAssociates(ParseItem(parse, Call(block)), None, None);
  }

  lemma JoinFour<T>(a: Option<seq<T>>, b: Option<seq<T>>, c: Option<seq<T>>, d: Option<seq<T>>)
    requires a.Some?
    ensures var all, behind := Join(Join(a, Join(b, c)), d), Join(c, d);
            && (all.Some? <==> b.Some? && behind.Some?)
            && (all.Some? ==> all.value == a.value + b.value + behind.value)
  {
    if b.Some? && c.Some? && d.Some? {
      assert a.value + (b.value + c.value) + d.value == a.value + b.value + (c.value + d.value);
    }
  }

  /** A residue goes to the block parser as a whole when the stream ends: what the parser
      leaves visible is content, its calls follow, and its exception ends the stream. */
  lemma ResidueIsParsed<C>(parse: BlockParser<C>, chunks: seq<string>, plain: string, residue: string)
    requires Segment(Concat(chunks)) == Before(Chars(plain), Segments([], residue))
    ensures var all := Delivery(Run(parse, "", chunks));
            if residue == "" then all == Some(Spread(plain))
            else
              match parse(residue)
              case None => all.None?
              case Some(parsed) =>
                all == Some(Spread(plain) + Spread(parsed.visible) +
                            if parsed.calls == [] then [] else [ToolCalls(parsed.calls)])
  {
    hide Run; hide Segment; hide Spread; hide ParseItems; hide Concat; hide Chars; hide Deliver;
    StreamIsSegmentation(parse, chunks);
    ParseItemsOfChars(parse, plain);
    assert Chars(plain) + [] == Chars(plain);
    NothingDelivered<C>();
    if residue != "" && parse(residue).Some? {
      var parsed := parse(residue).value;
      DeliverParsed(parsed);
      var calls := if parsed.calls == [] then [] else [ToolCalls(parsed.calls)];
      assert Spread(plain) + (Spread(parsed.visible) + calls) == Spread(plain) + Spread(parsed.visible) + calls;
    } else {
      assert Spread<C>(plain) + [] == Spread(plain);
    }
  }

  lemma NothingDelivered<C>()
    ensures Deliver<C>([]) == []
  {
  }

  lemma DeliverParsed<C>(parsed: Parsed<C>)
    ensures Deliver((if parsed.visible == "" then [] else [Visible(parsed.visible)]) +
                    (if parsed.calls == [] then [] else [Calls(parsed.calls)])) ==
            Spread(parsed.visible) + if parsed.calls == [] then [] else [ToolCalls(parsed.calls)]
  {
    var a: seq<Emission<C>> := if parsed.visible == "" then [] else [Visible(parsed.visible)];
    var b: seq<Emission<C>> := if parsed.calls == [] then [] else [Calls(parsed.calls)];
    DeliverConcat(a, b);
    assert a != [] ==> a[1..] == [];
    assert b != [] ==> b[1..] == [];
  }

  /** A block that never ends is withheld from the content, in every chunking. */
  lemma OpenBlockIsWithheld<C>(parse: BlockParser<C>, chunks: seq<string>, plain: string, open: string, body: string,
                               close: string)
    requires IsBoundary(open, close) && NotBefore(body, close, |body|)
    requires Concat(chunks) == plain + (open + body) && PlainUpTo(Concat(chunks), |plain|)
    ensures var all := Delivery(Run(parse, "", chunks));
            match parse(open + body)
            case None => all.None?
            case Some(parsed) =>
              all == Some(Spread(plain) + Spread(parsed.visible) +
                          if parsed.calls == [] then [] else [ToolCalls(parsed.calls)])
  {
    hide Run; hide Segment; hide HeadMarker; hide Starts; hide Ends; hide PlainUpTo; hide Spread; hide Delivery;
    hide Concat; hide Chars;
    var w := WhichStart(open);
    ContentUpToStart(plain, open + body, w);
    NeverEnds(open, body, close, w);
    UnfinishedIsResidue(open + body, w);
    ResidueIsParsed(parse, chunks, plain, open + body);
  }

  lemma NeverEnds(open: string, body: string, close: string, which: nat)
    requires which < |Starts()| && |Ends()| == |Starts()| && open == Starts()[which] && close == Ends()[which]
    requires NotBefore(body, close, |body|)
    ensures BlockEnd(open + body, which) == -1
  {
    hide Starts; hide Find; hide At; hide Headed;
    StartsAreHeaded();
    var text := open + body;
    var found := Find(text, close, |open|);
    if found != -1 {
      AtFits(text, found, close);
      AtShifts(open, body, found - |open|, close);
      AtIsPrefix(body, found - |open|, close);
    }
  }

  lemma UnfinishedIsResidue(text: string, which: nat)
    requires which < |Starts()| && text != "" && HeadMarker(text, Starts()) == Match(0, which)
    requires BlockEnd(text, which) == -1
    ensures Segment(text) == Segments([], text)
  {
    hide HeadMarker; hide BlockEnd; hide Starts; hide Headed; hide NonEmpty;
  }

  /** `text` may still grow into a start marker. */
  predicate MayStart(text: string) {
    (text < "<tool_call>" || text < "<|tool_call>") && text != ""
  }

  /** Without a start marker everything is content but the longest end of the text that might
      still have become one; that much is parsed as a whole when the stream ends. */
  lemma PlainTextIsContent<C>(parse: BlockParser<C>, chunks: seq<string>, plain: string, held: string)
    requires Concat(chunks) == plain + held && PlainUpTo(plain + held, |plain + held|)
    requires held == "" || MayStart(held)
    requires forall i :: 0 <= i < |plain| ==> !MayStart((plain + held)[i..])
    ensures var all := Delivery(Run(parse, "", chunks));
            if held == "" then all == Some(Spread(plain))
            else
              match parse(held)
              case None => all.None?
              case Some(parsed) =>
                all == Some(Spread(plain) + Spread(parsed.visible) +
                            if parsed.calls == [] then [] else [ToolCalls(parsed.calls)])
  {
    hide Run; hide Segment; hide HeadMarker; hide Starts; hide Spread; hide Delivery; hide Concat; hide Chars;
    hide Occurs; hide Pending; hide Retained; hide MayStart; hide PlainUpTo; hide FlushParsed;
    var text := plain + held;
    forall i | 0 <= i < |plain| ensures !Occurs(text, Starts(), i) && !Pending(text, Starts(), i) {
      NothingStarts(text, |text|, i);
      if Pending(text, Starts(), i) { PendingMayStart(text, i); }
    }
    SegmentPlain(plain, held);
    if held != "" {
      HeldMayStart(held);
      assert held == text[|plain|..];
      NothingStarts(text, |text|, |plain|);
      assert !Occurs(held, Starts(), 0) by { OccursShifts(plain, held, Starts(), 0); }
      NoHeadMarker(held, Starts());
    }
    HeldSegments(held);
    ResidueIsParsed(parse, chunks, plain, held);
  }

  lemma PendingMayStart(text: string, i: nat)
    requires i <= |text| && Pending(text, Starts(), i)
    ensures MayStart(text[i..])
  {
    var k :| 0 <= k < |Starts()| && PartialAt(text, i, Starts()[k]);
    assert k == 0 || k == 1;
  }

  lemma HeldMayStart(held: string)
    requires MayStart(held)
    ensures Retained(held, Starts()) == |held|
  {
    hide Retained; hide PartialAt;
    if held < "<tool_call>" { PartialOfPrefix(held, "<tool_call>"); } else { PartialOfPrefix(held, "<|tool_call>"); }
    assert PartialAt(held, 0, Starts()[0]) || PartialAt(held, 0, Starts()[1]);
    assert Pending(held, Starts(), 0);
  }

  lemma PartialOfPrefix(held: string, marker: string)
    requires held < marker && held != ""
    ensures PartialAt(held, 0, marker)
  {
    assert held[0..] == held;
  }

  lemma HeldSegments(held: string)
    requires held == "" || (HeadMarker(held, Starts()).NoMatch? && Retained(held, Starts()) == |held|)
    ensures Segment(held) == Segments([], held)
  {
    hide HeadMarker; hide Starts; hide Retained;
  }
}
