/** Quoting the bare object keys of Gemma tool-call arguments: a one-pass transducer over
    the text, compared with printing a concrete syntax tree. */
module GemmaKeys {

  // ----- the transducer -----

  datatype Context = Context(isObject: bool, expectKey: bool)

  /** The context stack, innermost first; the outermost context is never popped. */
  datatype Contexts = Outer(top: Context) | Inner(top: Context, below: Contexts)

  datatype Mode = Plain | InString | Escaped

  const BODY := Outer(Context(true, true))

  /** Characters matched by `\s` in a Python text pattern. */
  predicate IsSpace(c: char) {
    || '\U{0009}' <= c <= '\U{000D}' || '\U{001C}' <= c <= '\U{0020}'
    || c == '\U{0085}' || c == '\U{00A0}' || c == '\U{1680}' || '\U{2000}' <= c <= '\U{200A}'
    || c == '\U{2028}' || c == '\U{2029}' || c == '\U{202F}' || c == '\U{205F}' || c == '\U{3000}'
  }

  predicate IsKeyStart(c: char) {
    'A' <= c <= 'Z' || 'a' <= c <= 'z' || c == '_'
  }

  predicate IsKeyPart(c: char) {
    IsKeyStart(c) || '0' <= c <= '9' || c == '-'
  }

  function Spaces(text: string): (n: nat)
    ensures n <= |text|
  {
    if text != "" && IsSpace(text[0]) then 1 + Spaces(text[1..]) else 0
  }

  function KeyParts(text: string): (n: nat)
    ensures n <= |text|
  {
    if text != "" && IsKeyPart(text[0]) then 1 + KeyParts(text[1..]) else 0
  }

  datatype KeyMatch = NoKey | Key(start: nat, end: nat)

  /** Spaces, an identifier, spaces and a colon ahead: where the identifier lies. */
  function BareKey(text: string): (r: KeyMatch)
    ensures r.Key? ==> r.start < r.end < |text|
  {
    var start := Spaces(text);
    var end := start + KeyParts(text[start..]);
    var colon := end + Spaces(text[end..]);
    if start < end && IsKeyStart(text[start]) && colon < |text| && text[colon] == ':'
    then Key(start, end)
    else NoKey
  }

  predicate ExpectsKey(cs: Contexts) {
    cs.top.isObject && cs.top.expectKey
  }

  function SetExpect(cs: Contexts, expectKey: bool): Contexts {
    cs.(top := cs.top.(expectKey := expectKey))
  }

  /** What a character outside strings does to the context stack. */
  function After(cs: Contexts, c: char): Contexts {
    if c == '{' then Inner(Context(true, true), cs)
    else if c == '[' then Inner(Context(false, false), cs)
    else if (c == '}' || c == ']') && cs.Inner? then cs.below
    else if c == ',' && cs.top.isObject then SetExpect(cs, true)
    else if c == ':' && cs.top.isObject then SetExpect(cs, false)
    else cs
  }

  function InStringNext(mode: Mode, c: char): Mode {
    if mode.Escaped? then InString else if c == '\\' then Escaped else if c == '"' then Plain else InString
  }

  function Transduce(cs: Contexts, mode: Mode, text: string): string
    decreases |text|
  {
    if text == "" then ""
    else if !mode.Plain? then [text[0]] + Transduce(cs, InStringNext(mode, text[0]), text[1..])
    else if text[0] == '"' then [text[0]] + Transduce(cs, InString, text[1..])
    else
      var key := BareKey(text);
      if ExpectsKey(cs) && key.Key? then
        "\"" + text[key.start..key.end] + "\"" + Transduce(SetExpect(cs, false), Plain, text[key.end..])
      else [text[0]] + Transduce(After(cs, text[0]), Plain, text[1..])
  }

  function Quote(text: string): string {
    Transduce(BODY, Plain, text)
  }

  /** `_quote_gemma_object_keys`: the index loop. */
  method QuoteGemmaObjectKeys(value: string) returns (output: string)
    ensures output == Quote(value)
  {
    hide BareKey; hide After; hide Transduce; hide IsSpace; hide SetExpect; hide ExpectsKey; hide InStringNext;
    output := "";
    var contexts, mode, index := BODY, Plain, 0;
    assert value[index..] == value;
    while index < |value|
      invariant index <= |value|
      invariant output + Transduce(contexts, mode, value[index..]) == Quote(value)
    {
      var rest := value[index..];
      TransduceStep(contexts, mode, rest);
      assert rest[1..] == value[index + 1..] && rest[0] == value[index];
      var character := value[index];
      if !mode.Plain? {
        output := output + [character];
        mode := InStringNext(mode, character);
        index := index + 1;
      } else if character == '"' {
        mode := InString;
        output := output + [character];
        index := index + 1;
      } else {
        var key := BareKey(rest);
        if ExpectsKey(contexts) && key.Key? {
          assert rest[key.end..] == value[index + key.end..];
          output := output + ("\"" + rest[key.start..key.end] + "\"");
          index := index + key.end;
          contexts := SetExpect(contexts, false);
        } else {
          output := output + [character];
          contexts := After(contexts, character);
          index := index + 1;
        }
      }
    }
    assert value[index..] == "";
    TransduceNothing(contexts, mode);
  }

  lemma TransduceNothing(cs: Contexts, mode: Mode)
    ensures Transduce(cs, mode, "") == ""
  {
  }

  lemma TransduceStep(cs: Contexts, mode: Mode, text: string)
    requires text != ""
    ensures !mode.Plain? ==>
              Transduce(cs, mode, text) == [text[0]] + Transduce(cs, InStringNext(mode, text[0]), text[1..])
    ensures mode.Plain? && text[0] == '"' ==>
              Transduce(cs, mode, text) == [text[0]] + Transduce(cs, InString, text[1..])
    ensures var key := BareKey(text);
            mode.Plain? && text[0] != '"' && ExpectsKey(cs) && key.Key? ==>
              Transduce(cs, mode, text) ==
                "\"" + text[key.start..key.end] + "\"" + Transduce(SetExpect(cs, false), Plain, text[key.end..])
    ensures mode.Plain? && text[0] != '"' && !(ExpectsKey(cs) && BareKey(text).Key?) ==>
              Transduce(cs, mode, text) == [text[0]] + Transduce(After(cs, text[0]), Plain, text[1..])
  {
    hide BareKey; hide After;
  }

  // ----- concrete syntax trees -----

  /** One character of a string literal, alone or behind a backslash. */
  datatype Unit = Bare(c: char) | Escape(c: char)

  datatype KeyText = BareName(name: string) | QuotedName(units: seq<Unit>)

  /** A JSON value with its white space. `Atom` stands for numbers and the three literals. */
  datatype Value = Text(units: seq<Unit>) | Atom(text: string)
                 | Object(members: Members) | Array(elements: Elements)

  datatype Members = NoMembers(pad: string)
                   | Member(lead: string, key: KeyText, gap: string, mid: string, value: Value, trail: string,
                            rest: Members)

  datatype Elements = NoElements(pad: string) | Element(lead: string, value: Value, trail: string, rest: Elements)

  function PrintUnits(units: seq<Unit>): string {
    if units == [] then ""
    else (match units[0] case Bare(c) => [c] case Escape(c) => ['\\', c]) + PrintUnits(units[1..])
  }

  function PrintString(units: seq<Unit>): string {
    "\"" + PrintUnits(units) + "\""
  }

  function PrintKey(key: KeyText): string {
    match key case BareName(name) => name case QuotedName(units) => PrintString(units)
  }

  function PrintValue(value: Value): string
    decreases value, 0
  {
    match value
    case Text(units) => PrintString(units)
    case Atom(text) => text
    case Object(members) => "{" + PrintMembers(members) + "}"
    case Array(elements) => "[" + PrintElements(elements) + "]"
  }

  function PrintMembers(ms: Members): string
    decreases ms, 0
  {
    match ms
    case NoMembers(pad) => pad
    case Member(lead, key, gap, mid, value, trail, rest) =>
      lead + (PrintKey(key) + (gap + (":" + (mid + (PrintValue(value) + (trail + MoreMembers(rest)))))))
  }

  function MoreMembers(ms: Members): string
    decreases ms, 1
  {
    if ms.NoMembers? then "" else "," + PrintMembers(ms)
  }

  function PrintElements(es: Elements): string
    decreases es, 0
  {
    match es
    case NoElements(pad) => pad
    case Element(lead, value, trail, rest) => lead + (PrintValue(value) + (trail + MoreElements(rest)))
  }

  function MoreElements(es: Elements): string
    decreases es, 1
  {
    if es.NoElements? then "" else "," + PrintElements(es)
  }

  predicate AllSpace(text: string) {
    forall i :: 0 <= i < |text| ==> IsSpace(text[i])
  }

  /** Neither a quote nor one of the six structural characters. */
  predicate IsAtomic(c: char) {
    c != '"' && c != '{' && c != '}' && c != '[' && c != ']' && c != ',' && c != ':'
  }

  predicate AllAtomic(text: string) {
    forall i :: 0 <= i < |text| ==> IsAtomic(text[i])
  }

  predicate IsName(name: string) {
    name != "" && IsKeyStart(name[0]) && forall i :: 0 <= i < |name| ==> IsKeyPart(name[i])
  }

  predicate WellFormedUnits(units: seq<Unit>) {
    forall i :: 0 <= i < |units| && units[i].Bare? ==> units[i].c != '"' && units[i].c != '\\'
  }

  predicate WellFormedKey(key: KeyText) {
    match key case BareName(name) => IsName(name) case QuotedName(units) => WellFormedUnits(units)
  }

  predicate WellFormedValue(value: Value) {
    match value
    case Text(units) => WellFormedUnits(units)
    case Atom(text) => AllAtomic(text)
    case Object(members) => WellFormedMembers(members)
    case Array(elements) => WellFormedElements(elements)
  }

  predicate WellFormedMembers(ms: Members) {
    match ms
    case NoMembers(pad) => AllSpace(pad)
    case Member(lead, key, gap, mid, value, trail, rest) =>
      AllSpace(lead) && WellFormedKey(key) && AllSpace(gap) && AllSpace(mid) && WellFormedValue(value) &&
      AllSpace(trail) && WellFormedMembers(rest)
  }

  predicate WellFormedElements(es: Elements) {
    match es
    case NoElements(pad) => AllSpace(pad)
    case Element(lead, value, trail, rest) =>
      AllSpace(lead) && WellFormedValue(value) && AllSpace(trail) && WellFormedElements(rest)
  }

  // ----- the same tree with every key quoted -----

  function Units(text: string): seq<Unit> {
    if text == "" then [] else [Bare(text[0])] + Units(text[1..])
  }

  function QuotedKey(key: KeyText): KeyText {
    match key case BareName(name) => QuotedName(Units(name)) case QuotedName(_) => key
  }

  function QuotedValue(value: Value): Value {
    match value
    case Text(_) => value
    case Atom(_) => value
    case Object(members) => Object(QuotedMembers(members))
    case Array(elements) => Array(QuotedElements(elements))
  }

  /** Every bare key quoted; the white space in front of a bare key goes with it. */
  function QuotedMembers(ms: Members): Members {
    match ms
    case NoMembers(_) => ms
    case Member(lead, key, gap, mid, value, trail, rest) =>
      Member(if key.BareName? then "" else lead, QuotedKey(key), gap, mid, QuotedValue(value), trail,
             QuotedMembers(rest))
  }

  function QuotedElements(es: Elements): Elements {
    match es
    case NoElements(_) => es
    case Element(lead, value, trail, rest) => Element(lead, QuotedValue(value), trail, QuotedElements(rest))
  }

  // ----- the transducer on the pieces of a printed tree -----

  lemma Assoc(a: string, b: string, c: string)
    ensures a + (b + c) == (a + b) + c
  {
  }

  lemma HeadTail(c: char, text: string)
    ensures ([c] + text)[0] == c && ([c] + text)[1..] == text && [c] + text != ""
  {
  }

  /** A run of atomic characters where no key is expected passes through. */
  lemma {:induction false} AtomicRun(cs: Contexts, run: string, rest: string)
    requires AllAtomic(run) && !ExpectsKey(cs)
    ensures Transduce(cs, Plain, run + rest) == run + Transduce(cs, Plain, rest)
  {
    hide BareKey; hide Transduce;
    if run == "" {
      assert run + rest == rest && run + Transduce(cs, Plain, rest) == Transduce(cs, Plain, rest);
    } else {
      assert run + rest == [run[0]] + (run[1..] + rest);
      HeadTail(run[0], run[1..] + rest);
      TransduceStep(cs, Plain, run + rest);
      AtomicRun(cs, run[1..], rest);
      Assoc([run[0]], run[1..], Transduce(cs, Plain, rest));
      assert [run[0]] + run[1..] == run;
    }
  }

  lemma {:induction false} SpacesRun(run: string, rest: string)
    requires AllSpace(run)
    ensures Spaces(run + rest) == |run| + Spaces(rest)
  {
    if run == "" {
      assert run + rest == rest;
    } else {
      assert (run + rest)[1..] == run[1..] + rest;
      SpacesRun(run[1..], rest);
    }
  }

  /** White space in key position passes through unless a bare key follows it. */
  lemma {:induction false} SpaceRun(cs: Contexts, run: string, rest: string)
    requires AllSpace(run) && (rest == "" || (!IsSpace(rest[0]) && !IsKeyStart(rest[0])))
    ensures Transduce(cs, Plain, run + rest) == run + Transduce(cs, Plain, rest)
  {
    hide BareKey; hide Transduce;
    if run == "" {
      assert run + rest == rest && run + Transduce(cs, Plain, rest) == Transduce(cs, Plain, rest);
    } else {
      assert run + rest == [run[0]] + (run[1..] + rest);
      HeadTail(run[0], run[1..] + rest);
      NoKeyAfterSpace(run, rest);
      TransduceStep(cs, Plain, run + rest);
      SpaceRun(cs, run[1..], rest);
      Assoc([run[0]], run[1..], Transduce(cs, Plain, rest));
      assert [run[0]] + run[1..] == run;
    }
  }

  lemma NoKeyAfterSpace(run: string, rest: string)
    requires AllSpace(run) && (rest == "" || (!IsSpace(rest[0]) && !IsKeyStart(rest[0])))
    ensures BareKey(run + rest).NoKey?
  {
    SpacesRun(run, rest);
    assert Spaces(run + rest) == |run|;
    assert rest != "" ==> (run + rest)[|run|] == rest[0];
  }

  lemma {:induction false} StringRun(cs: Contexts, units: seq<Unit>, rest: string)
    requires WellFormedUnits(units)
    ensures Transduce(cs, InString, PrintUnits(units) + ("\"" + rest))
            == PrintUnits(units) + ("\"" + Transduce(cs, Plain, rest))
  {
    hide BareKey; hide Transduce;
    var tail := "\"" + rest;
    if units == [] {
      assert PrintUnits(units) + tail == tail;
      TransduceStep(cs, InString, tail);
      assert tail[1..] == rest;
    } else {
      var more := PrintUnits(units[1..]) + tail;
      StringRun(cs, units[1..], rest);
      match units[0]
      case Bare(c) =>
        assert PrintUnits(units) + tail == [c] + more;
        HeadTail(c, more);
        TransduceStep(cs, InString, [c] + more);
      case Escape(c) =>
        assert PrintUnits(units) + tail == ['\\'] + ([c] + more);
        HeadTail('\\', [c] + more);
        HeadTail(c, more);
        TransduceStep(cs, InString, ['\\'] + ([c] + more));
        TransduceStep(cs, Escaped, [c] + more);
    }
  }

  /** A whole string literal passes through in any context. */
  lemma QuotedRun(cs: Contexts, units: seq<Unit>, rest: string)
    requires WellFormedUnits(units)
    ensures Transduce(cs, Plain, PrintString(units) + rest) == PrintString(units) + Transduce(cs, Plain, rest)
  {
    hide BareKey; hide Transduce; hide PrintUnits;
    var body := PrintUnits(units) + ("\"" + rest);
    assert PrintString(units) + rest == ['"'] + body;
    HeadTail('"', body);
    TransduceStep(cs, Plain, ['"'] + body);
    StringRun(cs, units, rest);
  }

  /** A bare key in key position is quoted, with the space in front of it dropped. */
  lemma BareKeyRun(cs: Contexts, lead: string, name: string, gap: string, rest: string)
    requires AllSpace(lead) && IsName(name) && AllSpace(gap) && ExpectsKey(cs)
    ensures Transduce(cs, Plain, lead + (name + (gap + (":" + rest))))
            == ("\"" + name + "\"") + Transduce(SetExpect(cs, false), Plain, gap + (":" + rest))
  {
    hide Transduce; hide BareKey;
    var tail := gap + (":" + rest);
    var text := lead + (name + tail);
    FindsBareKey(lead, name, gap, rest);
    assert text[0] != '"' by {
      assert text[0] == if lead == "" then name[0] else lead[0];
    }
    TransduceStep(cs, Plain, text);
    Between(lead, name, tail);
  }

  lemma Between(a: string, b: string, c: string)
    ensures (a + (b + c))[|a|..|a| + |b|] == b && (a + (b + c))[|a| + |b|..] == c
  {
    assert a + (b + c) == (a + b) + c;
  }

  lemma NoSpaces(text: string)
    requires text != "" && !IsSpace(text[0])
    ensures Spaces(text) == 0
  {
  }

  lemma NoKeyParts(text: string)
    requires text != "" && !IsKeyPart(text[0])
    ensures KeyParts(text) == 0
  {
  }

  lemma FindsBareKey(lead: string, name: string, gap: string, rest: string)
    requires AllSpace(lead) && IsName(name) && AllSpace(gap)
    ensures BareKey(lead + (name + (gap + (":" + rest)))) == Key(|lead|, |lead| + |name|)
  {
    hide Spaces; hide KeyParts;
    var tail := gap + (":" + rest);
    var text := lead + (name + tail);
    SpacesRun(lead, name + tail);
    assert (name + tail)[0] == name[0] && tail[0] == if gap == "" then ':' else gap[0];
    NoSpaces(name + tail);
    assert text[|lead|..] == name + tail;
    KeyPartsRun(name, tail);
    NoKeyParts(tail);
    Between(lead, name, tail);
    SpacesRun(gap, ":" + rest);
    NoSpaces(":" + rest);
    assert text[|lead|] == name[0] && text[|lead| + |name| + |gap|] == ':';
  }

  lemma {:induction false} KeyPartsRun(name: string, rest: string)
    requires forall i :: 0 <= i < |name| ==> IsKeyPart(name[i])
    ensures KeyParts(name + rest) == |name| + KeyParts(rest)
  {
    if name == "" {
      assert name + rest == rest;
    } else {
      assert (name + rest)[1..] == name[1..] + rest;
      KeyPartsRun(name[1..], rest);
    }
  }

  /** One structural character outside strings. */
  lemma StructuralChar(cs: Contexts, c: char, rest: string)
    requires c == '{' || c == '}' || c == '[' || c == ']' || c == ',' || c == ':'
    ensures Transduce(cs, Plain, [c] + rest) == [c] + Transduce(After(cs, c), Plain, rest)
  {
    hide Transduce; hide After; hide BareKey;
    HeadTail(c, rest);
    assert "" + ([c] + rest) == [c] + rest;
    NoKeyAfterSpace("", [c] + rest);
    TransduceStep(cs, Plain, [c] + rest);
  }

  lemma SpacesAreAtomic(run: string)
    requires AllSpace(run)
    ensures AllAtomic(run)
  {
  }

  // ----- the transducer on a printed tree -----

  lemma AssocMember(lead: string, key: string, gap: string, mid: string, value: string, trail: string, more: string,
                    rest: string)
    ensures (lead + (key + (gap + (":" + (mid + (value + (trail + more))))))) + rest
            == lead + (key + (gap + (":" + (mid + (value + (trail + (more + rest)))))))
  {
    Assoc(trail, more, rest);
    Assoc(value, trail + more, rest);
    Assoc(mid, value + (trail + more), rest);
    Assoc(":", mid + (value + (trail + more)), rest);
    Assoc(gap, ":" + (mid + (value + (trail + more))), rest);
    Assoc(key, gap + (":" + (mid + (value + (trail + more)))), rest);
    Assoc(lead, key + (gap + (":" + (mid + (value + (trail + more))))), rest);
  }

  ghost predicate EndsBody(rest: string) {
    rest == "" || rest[0] == '}'
  }

  lemma {:induction false} ValueRun(cs: Contexts, value: Value, rest: string)
    requires WellFormedValue(value) && !ExpectsKey(cs)
    ensures Transduce(cs, Plain, PrintValue(value) + rest)
            == PrintValue(QuotedValue(value)) + Transduce(cs, Plain, rest)
    decreases value, 0
  {
    hide Transduce; hide PrintMembers; hide PrintElements;
    match value
    case Text(units) => QuotedRun(cs, units, rest);
    case Atom(text) => AtomicRun(cs, text, rest);
    case Object(members) =>
      var tail := "}" + rest;
      var inner := Inner(Context(true, true), cs);
      assert PrintValue(value) + rest == "{" + (PrintMembers(members) + tail);
      StructuralChar(cs, '{', PrintMembers(members) + tail);
      MembersRun(inner, members, tail);
      StructuralChar(if members.NoMembers? then inner else SetExpect(inner, false), '}', rest);
    case Array(elements) =>
      var tail := "]" + rest;
      var inner := Inner(Context(false, false), cs);
      assert PrintValue(value) + rest == "[" + (PrintElements(elements) + tail);
      StructuralChar(cs, '[', PrintElements(elements) + tail);
      ElementsRun(inner, elements, tail);
      StructuralChar(inner, ']', rest);
  }

  lemma {:induction false} MembersRun(cs: Contexts, ms: Members, rest: string)
    requires WellFormedMembers(ms) && cs.top == Context(true, true) && EndsBody(rest)
    ensures Transduce(cs, Plain, PrintMembers(ms) + rest)
            == PrintMembers(QuotedMembers(ms))
               + Transduce(if ms.NoMembers? then cs else SetExpect(cs, false), Plain, rest)
    decreases ms, 0
  {
    hide Transduce; hide PrintValue; hide PrintKey;
    match ms
    case NoMembers(pad) => SpaceRun(cs, pad, rest);
    case Member(lead, key, gap, mid, value, trail, others) =>
      var more := MoreMembers(others) + rest;
      AssocMember(lead, PrintKey(key), gap, mid, PrintValue(value), trail, MoreMembers(others), rest);
      KeyRun(cs, lead, key, gap, mid + (PrintValue(value) + (trail + more)));
      var inside := SetExpect(cs, false);
      SpacesAreAtomic(mid);
      SpacesAreAtomic(trail);
      AtomicRun(inside, mid, PrintValue(value) + (trail + more));
      ValueRun(inside, value, trail + more);
      AtomicRun(inside, trail, more);
      MoreMembersRun(cs, others, rest);
      var q := QuotedMembers(ms);
      AssocMember(q.lead, PrintKey(q.key), gap, mid, PrintValue(q.value), trail, MoreMembers(q.rest),
                  Transduce(inside, Plain, rest));
  }

  /** White space, key, white space and colon of one member. */
  lemma KeyRun(cs: Contexts, lead: string, key: KeyText, gap: string, rest: string)
    requires cs.top == Context(true, true) && AllSpace(lead) && WellFormedKey(key) && AllSpace(gap)
    ensures Transduce(cs, Plain, lead + (PrintKey(key) + (gap + (":" + rest))))
            == (if key.BareName? then "" else lead)
               + (PrintKey(QuotedKey(key)) + (gap + (":" + Transduce(SetExpect(cs, false), Plain, rest))))
  {
    hide Transduce; hide BareKey;
    var tail := gap + (":" + rest);
    StructuralChar(cs, ':', rest);
    StructuralChar(SetExpect(cs, false), ':', rest);
    match key
    case BareName(name) =>
      BareKeyRun(cs, lead, name, gap, rest);
      SpaceRun(SetExpect(cs, false), gap, ":" + rest);
      PrintPlainUnits(name);
      var end := gap + (":" + Transduce(SetExpect(cs, false), Plain, rest));
      assert "" + (PrintKey(QuotedKey(key)) + end) == ("\"" + name + "\"") + end;
    case QuotedName(units) =>
      hide PrintUnits;
      assert (PrintString(units) + tail)[0] == '"';
      SpaceRun(cs, lead, PrintString(units) + tail);
      QuotedRun(cs, units, tail);
      SpaceRun(cs, gap, ":" + rest);
  }

  lemma {:induction false} PrintPlainUnits(text: string)
    ensures PrintUnits(Units(text)) == text
  {
    if text != "" {
      PrintPlainUnits(text[1..]);
      assert Units(text)[1..] == Units(text[1..]);
    }
  }

  lemma {:induction false} MoreMembersRun(cs: Contexts, ms: Members, rest: string)
    requires WellFormedMembers(ms) && cs.top == Context(true, true) && EndsBody(rest)
    ensures Transduce(SetExpect(cs, false), Plain, MoreMembers(ms) + rest)
            == MoreMembers(QuotedMembers(ms)) + Transduce(SetExpect(cs, false), Plain, rest)
    decreases ms, 1
  {
    hide Transduce; hide PrintMembers;
    var inside := SetExpect(cs, false);
    if ms.NoMembers? {
      assert "" + rest == rest && "" + Transduce(inside, Plain, rest) == Transduce(inside, Plain, rest);
    } else {
      assert MoreMembers(ms) + rest == "," + (PrintMembers(ms) + rest);
      StructuralChar(inside, ',', PrintMembers(ms) + rest);
      assert SetExpect(inside, true) == cs;
      MembersRun(cs, ms, rest);
      Assoc(",", PrintMembers(QuotedMembers(ms)), Transduce(inside, Plain, rest));
    }
  }

  lemma {:induction false} ElementsRun(cs: Contexts, es: Elements, rest: string)
    requires WellFormedElements(es) && !cs.top.isObject
    ensures Transduce(cs, Plain, PrintElements(es) + rest)
            == PrintElements(QuotedElements(es)) + Transduce(cs, Plain, rest)
    decreases es, 0
  {
    hide Transduce; hide PrintValue;
    match es
    case NoElements(pad) =>
      SpacesAreAtomic(pad);
      AtomicRun(cs, pad, rest);
    case Element(lead, value, trail, others) =>
      var more := MoreElements(others) + rest;
      SpacesAreAtomic(lead);
      SpacesAreAtomic(trail);
      AssocElement(lead, PrintValue(value), trail, MoreElements(others), rest);
      AtomicRun(cs, lead, PrintValue(value) + (trail + more));
      ValueRun(cs, value, trail + more);
      AtomicRun(cs, trail, more);
      MoreElementsRun(cs, others, rest);
      var q := QuotedElements(es);
      AssocElement(lead, PrintValue(q.value), trail, MoreElements(q.rest), Transduce(cs, Plain, rest));
  }

  lemma AssocElement(lead: string, value: string, trail: string, more: string, rest: string)
    ensures (lead + (value + (trail + more))) + rest == lead + (value + (trail + (more + rest)))
  {
    Assoc(trail, more, rest);
    Assoc(value, trail + more, rest);
    Assoc(lead, value + (trail + more), rest);
  }

  lemma {:induction false} MoreElementsRun(cs: Contexts, es: Elements, rest: string)
    requires WellFormedElements(es) && !cs.top.isObject
    ensures Transduce(cs, Plain, MoreElements(es) + rest)
            == MoreElements(QuotedElements(es)) + Transduce(cs, Plain, rest)
    decreases es, 1
  {
    hide Transduce; hide PrintElements;
    if es.NoElements? {
      assert "" + rest == rest && "" + Transduce(cs, Plain, rest) == Transduce(cs, Plain, rest);
    } else {
      assert MoreElements(es) + rest == "," + (PrintElements(es) + rest);
      StructuralChar(cs, ',', PrintElements(es) + rest);
      ElementsRun(cs, es, rest);
      Assoc(",", PrintElements(QuotedElements(es)), Transduce(cs, Plain, rest));
    }
  }

  /** The transducer quotes exactly the bare keys of an object body, at every depth, and
      changes nothing else but the white space in front of them. */
  lemma QuoteIsPrinterCorrect(body: Members)
    requires WellFormedMembers(body)
    ensures Quote(PrintMembers(body)) == PrintMembers(QuotedMembers(body))
  {
    hide Transduce; hide PrintMembers;
    MembersRun(BODY, body, "");
    TransduceNothing(BODY, Plain);
    TransduceNothing(SetExpect(BODY, false), Plain);
    assert PrintMembers(body) + "" == PrintMembers(body);
    assert PrintMembers(QuotedMembers(body)) + "" == PrintMembers(QuotedMembers(body));
  }

  // ----- strict JSON -----

  predicate StrictValue(value: Value) {
    match value
    case Text(_) => true
    case Atom(_) => true
    case Object(members) => StrictMembers(members)
    case Array(elements) => StrictElements(elements)
  }

  /** No bare key at any depth. */
  predicate StrictMembers(ms: Members) {
    ms.Member? ==> ms.key.QuotedName? && StrictValue(ms.value) && StrictMembers(ms.rest)
  }

  predicate StrictElements(es: Elements) {
    es.Element? ==> StrictValue(es.value) && StrictElements(es.rest)
  }

  lemma {:induction false} StrictValueIsQuoted(value: Value)
    requires StrictValue(value)
    ensures QuotedValue(value) == value
  {
    if value.Object? { StrictMembersAreQuoted(value.members); }
    if value.Array? { StrictElementsAreQuoted(value.elements); }
  }

  lemma {:induction false} StrictMembersAreQuoted(ms: Members)
    requires StrictMembers(ms)
    ensures QuotedMembers(ms) == ms
  {
    if ms.Member? {
      StrictValueIsQuoted(ms.value);
      StrictMembersAreQuoted(ms.rest);
    }
  }

  lemma {:induction false} StrictElementsAreQuoted(es: Elements)
    requires StrictElements(es)
    ensures QuotedElements(es) == es
  {
    if es.Element? {
      StrictValueIsQuoted(es.value);
      StrictElementsAreQuoted(es.rest);
    }
  }

  /** The body of a strict JSON object, with any white space, comes out unchanged. */
  lemma QuoteKeepsStrictJson(body: Members)
    requires WellFormedMembers(body) && StrictMembers(body)
    ensures Quote(PrintMembers(body)) == PrintMembers(body)
  {
    hide Quote; hide PrintMembers;
    QuoteIsPrinterCorrect(body);
    StrictMembersAreQuoted(body);
  }

  lemma {:induction false} QuotedValueIsStrict(value: Value)
    requires WellFormedValue(value)
    ensures WellFormedValue(QuotedValue(value)) && StrictValue(QuotedValue(value))
  {
    if value.Object? { QuotedMembersAreStrict(value.members); }
    if value.Array? { QuotedElementsAreStrict(value.elements); }
  }

  lemma {:induction false} QuotedMembersAreStrict(ms: Members)
    requires WellFormedMembers(ms)
    ensures WellFormedMembers(QuotedMembers(ms)) && StrictMembers(QuotedMembers(ms))
  {
    if ms.Member? {
      if ms.key.BareName? { PlainUnitsAreWellFormed(ms.key.name); }
      QuotedValueIsStrict(ms.value);
      QuotedMembersAreStrict(ms.rest);
    }
  }

  lemma {:induction false} PlainUnitsAreWellFormed(name: string)
    requires forall i :: 0 <= i < |name| ==> IsKeyPart(name[i])
    ensures WellFormedUnits(Units(name))
  {
    if name != "" {
      PlainUnitsAreWellFormed(name[1..]);
    }
  }

  lemma {:induction false} QuotedElementsAreStrict(es: Elements)
    requires WellFormedElements(es)
    ensures WellFormedElements(QuotedElements(es)) && StrictElements(QuotedElements(es))
  {
    if es.Element? {
      QuotedValueIsStrict(es.value);
      QuotedElementsAreStrict(es.rest);
    }
  }

  // ----- quoting twice, on any text -----

  /** The first character behind the leading white space is a colon. */
  predicate LooksAtColon(text: string) {
    Spaces(text) < |text| && text[Spaces(text)] == ':'
  }

  /** So is the first one behind the leading identifier and the white space after it. */
  predicate LooksAtKey(text: string) {
    LooksAtColon(text[KeyParts(text)..])
  }

  lemma ColonCons(c: char, rest: string)
    ensures LooksAtColon([c] + rest) <==> if IsSpace(c) then LooksAtColon(rest) else c == ':'
    ensures LooksAtKey([c] + rest) <==> if IsKeyPart(c) then LooksAtKey(rest) else LooksAtColon([c] + rest)
  {
    HeadTail(c, rest);
    var text := [c] + rest;
    if IsKeyPart(c) { assert text[KeyParts(text)..] == rest[KeyParts(rest)..]; }
  }

  predicate StartsKey(text: string) {
    text != "" && IsKeyStart(text[0]) && LooksAtKey(text)
  }

  lemma DropTwice(text: string, m: nat, n: nat)
    requires m + n <= |text|
    ensures text[m..][n..] == text[m + n..]
  {
  }

  lemma NameStarts(text: string)
    requires text != "" && IsKeyStart(text[0])
    ensures KeyParts(text) > 0
  {
  }

  lemma BareKeyIs(text: string)
    ensures BareKey(text).Key? <==> StartsKey(text[Spaces(text)..])
  {
    hide IsSpace; hide IsKeyStart; hide IsKeyPart; hide Spaces; hide KeyParts;
    var start := Spaces(text);
    var name := text[start..];
    var end := start + KeyParts(name);
    var tail := text[end..];
    DropTwice(text, start, KeyParts(name));
    if name != "" && IsKeyStart(name[0]) { NameStarts(name); }
    assert end + Spaces(tail) < |text| ==> tail[Spaces(tail)] == text[end + Spaces(tail)];
  }

  lemma BareKeyCons(c: char, rest: string)
    ensures BareKey([c] + rest).Key? <==>
            if IsSpace(c) then BareKey(rest).Key? else IsKeyStart(c) && LooksAtKey([c] + rest)
  {
    hide BareKey; hide LooksAtKey; hide IsSpace;
    var text := [c] + rest;
    HeadTail(c, rest);
    BareKeyIs(text);
    BareKeyIs(rest);
    assert if IsSpace(c) then text[Spaces(text)..] == rest[Spaces(rest)..] else text[Spaces(text)..] == text;
  }

  /** In key position the output starts with the same character, or with a quote; and a
      character that is no structural one leaves the contexts alone. */
  lemma KeyPositionStep(cs: Contexts, text: string)
    requires ExpectsKey(cs) && text != ""
    ensures var out := Transduce(cs, Plain, text);
            && out != ""
            && (text[0] == '"' || BareKey(text).Key? ==> out[0] == '"')
            && (text[0] != '"' && BareKey(text).NoKey? ==>
                  out == [text[0]] + Transduce(After(cs, text[0]), Plain, text[1..]))
    ensures IsSpace(text[0]) || IsKeyPart(text[0]) ==> After(cs, text[0]) == cs
  {
    hide Transduce; hide BareKey;
    TransduceStep(cs, Plain, text);
  }

  lemma QuoteEndsSearch(text: string)
    requires text != "" && text[0] == '"'
    ensures !LooksAtColon(text) && !LooksAtKey(text) && BareKey(text).NoKey?
  {
    assert text == [text[0]] + text[1..];
    ColonCons(text[0], text[1..]);
    BareKeyCons(text[0], text[1..]);
  }

  lemma {:induction false} ColonWasThere(cs: Contexts, text: string)
    requires ExpectsKey(cs) && LooksAtColon(Transduce(cs, Plain, text))
    ensures LooksAtColon(text)
    decreases |text|
  {
    hide Transduce; hide BareKey; hide LooksAtColon; hide LooksAtKey;
    if text == "" {
      NothingToFind(cs);
    } else {
      var c, rest := text[0], text[1..];
      var out := Transduce(cs, Plain, text);
      assert text == [c] + rest;
      KeyPositionStep(cs, text);
      if out[0] == '"' { QuoteEndsSearch(out); }
      ColonCons(c, rest);
      ColonCons(c, Transduce(After(cs, c), Plain, rest));
      if IsSpace(c) { ColonWasThere(cs, rest); }
    }
  }

  lemma NothingToFind(cs: Contexts)
    ensures !LooksAtColon(Transduce(cs, Plain, "")) && !LooksAtKey(Transduce(cs, Plain, ""))
    ensures BareKey(Transduce(cs, Plain, "")).NoKey?
  {
  }

  lemma {:induction false} KeyWasThere(cs: Contexts, text: string)
    requires ExpectsKey(cs) && LooksAtKey(Transduce(cs, Plain, text))
    ensures LooksAtKey(text)
    decreases |text|
  {
    hide Transduce; hide BareKey; hide LooksAtColon; hide LooksAtKey;
    if text == "" {
      NothingToFind(cs);
    } else {
      var c, rest := text[0], text[1..];
      var out := Transduce(cs, Plain, text);
      assert text == [c] + rest;
      KeyPositionStep(cs, text);
      if out[0] == '"' { QuoteEndsSearch(out); }
      ColonCons(c, rest);
      ColonCons(c, Transduce(After(cs, c), Plain, rest));
      if IsKeyPart(c) { KeyWasThere(cs, rest); } else { ColonWasThere(cs, text); }
    }
  }

  /** What the transducer writes in key position has no bare key in front. */
  lemma {:induction false} NoKeyIsLeft(cs: Contexts, text: string)
    requires ExpectsKey(cs)
    ensures BareKey(Transduce(cs, Plain, text)).NoKey?
    decreases |text|
  {
    hide Transduce; hide BareKey; hide LooksAtColon; hide LooksAtKey;
    if text == "" {
      NothingToFind(cs);
    } else {
      var c, rest := text[0], text[1..];
      var out := Transduce(cs, Plain, text);
      assert text == [c] + rest;
      KeyPositionStep(cs, text);
      if out[0] == '"' {
        QuoteEndsSearch(out);
      } else {
        BareKeyCons(c, rest);
        BareKeyCons(c, Transduce(After(cs, c), Plain, rest));
        if IsSpace(c) {
          NoKeyIsLeft(cs, rest);
        } else if LooksAtKey(out) {
          KeyWasThere(cs, text);
        }
      }
    }
  }

  /** White space and a colon in an object pass through and end the search for a key. */
  lemma ColonRun(cs: Contexts, gap: string, more: string)
    requires AllSpace(gap) && cs.top.isObject
    ensures Transduce(cs, Plain, gap + (":" + more)) == gap + (":" + Transduce(SetExpect(cs, false), Plain, more))
  {
    hide Transduce;
    SpaceRun(cs, gap, ":" + more);
    StructuralChar(cs, ':', more);
  }

  lemma {:induction false} SpacesAreSpace(text: string)
    ensures AllSpace(text[..Spaces(text)])
  {
    if text != "" && IsSpace(text[0]) {
      SpacesAreSpace(text[1..]);
      assert text[..Spaces(text)] == [text[0]] + text[1..][..Spaces(text[1..])];
    }
  }

  lemma {:induction false} KeyPartsAreParts(text: string)
    ensures forall i :: 0 <= i < KeyParts(text) ==> IsKeyPart(text[i])
  {
    if text != "" && IsKeyPart(text[0]) {
      KeyPartsAreParts(text[1..]);
      assert forall i :: 0 < i < |text| ==> text[i] == text[1..][i - 1];
    }
  }

  /** A matched key: the identifier, white space, a colon and the rest. */
  lemma KeyParses(text: string) returns (name: string, gap: string, more: string)
    requires BareKey(text).Key?
    ensures var key := BareKey(text);
            && name == text[key.start..key.end] && text[key.end..] == gap + (":" + more)
            && AllSpace(gap) && |more| < |text| && forall i :: 0 <= i < |name| ==> IsKeyPart(name[i])
  {
    hide IsSpace; hide IsKeyStart; hide IsKeyPart; hide Spaces; hide KeyParts;
    var key := BareKey(text);
    name := text[key.start..key.end];
    var tail := text[key.end..];
    gap, more := tail[..Spaces(tail)], tail[Spaces(tail) + 1..];
    SpacesAreSpace(tail);
    KeyPartsAreParts(text[key.start..]);
    assert forall i :: 0 <= i < |name| ==> name[i] == text[key.start..][i];
    assert tail[Spaces(tail)] == text[key.end + Spaces(tail)] == ':';
    Split(tail, Spaces(tail));
  }

  lemma Split(text: string, n: nat)
    requires n < |text|
    ensures text == text[..n] + ([text[n]] + text[n + 1..])
  {
  }

  /** Behind a key that was quoted, the second pass falls in step at the colon. */
  lemma KeyIsQuotedOnce(cs: Contexts, name: string, gap: string, more: string)
    requires ExpectsKey(cs) && AllSpace(gap) && forall i :: 0 <= i < |name| ==> IsKeyPart(name[i])
    requires var after := Transduce(SetExpect(cs, false), Plain, more);
             Transduce(SetExpect(cs, false), Plain, after) == after
    ensures var out := "\"" + name + "\"" + Transduce(SetExpect(cs, false), Plain, gap + (":" + more));
            Transduce(cs, Plain, out) == out
  {
    hide Transduce;
    var after := Transduce(SetExpect(cs, false), Plain, more);
    ColonRun(SetExpect(cs, false), gap, more);
    ColonRun(cs, gap, after);
    PlainUnitsAreWellFormed(name);
    PrintPlainUnits(name);
    assert "\"" + name + "\"" == PrintString(Units(name));
    QuotedRun(cs, Units(name), gap + (":" + after));
  }

  lemma {:induction false} SecondPassIsIdle(cs: Contexts, mode: Mode, text: string)
    ensures Transduce(cs, mode, Transduce(cs, mode, text)) == Transduce(cs, mode, text)
    decreases |text|
  {
    hide Transduce; hide BareKey; hide After; hide ExpectsKey;
    var out := Transduce(cs, mode, text);
    if text == "" {
      TransduceNothing(cs, mode);
    } else {
      var c, rest := text[0], text[1..];
      TransduceStep(cs, mode, text);
      if mode.Plain? && c != '"' && ExpectsKey(cs) && BareKey(text).Key? {
        var name, gap, more := KeyParses(text);
        SecondPassIsIdle(SetExpect(cs, false), Plain, more);
        KeyIsQuotedOnce(cs, name, gap, more);
      } else {
        var after, next := if mode.Plain? && c != '"' then After(cs, c) else cs,
                           if !mode.Plain? then InStringNext(mode, c) else if c == '"' then InString else Plain;
        SecondPassIsIdle(after, next, rest);
        if mode.Plain? && ExpectsKey(cs) { NoKeyIsLeft(cs, text); }
        HeadTail(c, Transduce(after, next, rest));
        TransduceStep(cs, mode, out);
      }
    }
  }

  /** Quoting twice is quoting once, on every text. */
  lemma QuoteIsIdempotent(text: string)
    ensures Quote(Quote(text)) == Quote(text)
  {
    SecondPassIsIdle(BODY, Plain, text);
  }

  // ----- which characters make a key -----

  /** The pattern of a bare key: a letter or underscore, then letters, digits, underscores and
      hyphens. */
  predicate IsIdentifier(name: string) {
    && name != "" && ('A' <= name[0] <= 'Z' || 'a' <= name[0] <= 'z' || name[0] == '_')
    && forall i :: 0 <= i < |name| ==>
         var c := name[i]; 'A' <= c <= 'Z' || 'a' <= c <= 'z' || '0' <= c <= '9' || c == '_' || c == '-'
  }

  lemma OneKeyIsQuoted(lead: string, name: string)
    requires AllSpace(lead) && IsName(name)
    ensures Quote(lead + (name + ":0")) == "\"" + name + "\":0"
  {
    hide Transduce; hide BareKey;
    var cs := SetExpect(BODY, false);
    assert "" + (":" + "0") == ":0";
    BareKeyRun(BODY, lead, name, "", "0");
    StructuralChar(cs, ':', "0");
    AtomicRun(After(cs, ':'), "0", "");
    TransduceNothing(After(cs, ':'), Plain);
    assert "0" + "" == "0" && ":" + "0" == ":0";
    assert ("\"" + name + "\"") + ":0" == "\"" + name + "\":0";
  }

  /** The first character in key position, unless a key is found there. */
  lemma FirstCharacterStays(text: string)
    requires text != "" && text[0] != '"' && BareKey(text).NoKey?
    ensures Quote(text) != "" && Quote(text)[0] == text[0]
  {
    hide Transduce; hide BareKey;
    TransduceStep(BODY, Plain, text);
  }

  lemma KeyFound(text: string)
    requires text != "" && text[0] != '"' && BareKey(text).Key?
    ensures var key := BareKey(text);
            && IsName(text[key.start..key.end]) && (key.start > 0 ==> IsSpace(text[0]))
            && "\"" + text[key.start..key.end] + "\"" <= Quote(text)
            && forall i :: key.start <= i < key.end ==> IsKeyPart(text[i])
  {
    hide Transduce; hide IsSpace;
    TransduceStep(BODY, Plain, text);
    KeyPartsAreParts(text[Spaces(text)..]);
    var start := Spaces(text);
    assert forall i :: start <= i < |text| ==> text[i] == text[start..][i - start];
  }

  /** A key written alone comes out quoted exactly when it matches the pattern. */
  lemma IdentifiersAreQuoted(name: string)
    requires name != "" && forall i :: 0 <= i < |name| ==> name[i] != '"'
    ensures Quote(name + ":0") == "\"" + name + "\":0" <==> IsIdentifier(name)
  {
    hide BareKey; hide Quote;
    var text, target := name + ":0", "\"" + name + "\":0";
    if IsIdentifier(name) {
      OneKeyIsQuoted("", name);
      assert "" + text == text;
    } else if BareKey(text).NoKey? {
      FirstCharacterStays(text);
    } else {
      var key := BareKey(text);
      KeyFound(text);
      var found := text[key.start..key.end];
      var out := "\"" + found + "\"";
      if key.start > 0 {
        assert Quote(text)[1] == out[1] == found[0] && IsKeyStart(found[0]);
        assert target[1] == name[0] && IsSpace(name[0]);
      } else {
        assert text[|name|] == ':' && !IsKeyPart(':');
        assert key.end <= |name|;
        assert found == name[..key.end];
        assert IsName(name) ==> IsIdentifier(name);
        assert Quote(text)[1 + key.end] == out[1 + key.end] == '"';
        assert target[1 + key.end] == (name + "\"")[key.end];
        assert key.end == |name| ==> found == name;
      }
    }
  }

  /** Exactly the white space of Python's patterns may stand in front of a bare key, and it
      goes with it. */
  lemma SpaceBeforeKeyIsDropped(c: char)
    ensures Quote([c] + "a:0") == "\"a\":0" <==>
            c as int in {9, 10, 11, 12, 13, 28, 29, 30, 31, 32, 0x85, 0xA0, 0x1680, 0x2000, 0x2001, 0x2002, 0x2003,
                         0x2004, 0x2005, 0x2006, 0x2007, 0x2008, 0x2009, 0x200A, 0x2028, 0x2029, 0x202F, 0x205F, 0x3000}
  {
    hide BareKey; hide Quote;
    var text := [c] + "a:0";
    if IsSpace(c) {
      assert [c] + ("a" + ":0") == text;
      OneKeyIsQuoted([c], "a");
    } else if c == '"' {
      assert text == "\"a:0";
      QuoteOpensString();
    } else if IsKeyStart(c) {
      assert [c] + "a" + ":0" == text;
      OneKeyIsQuoted("", [c] + "a");
      assert "" + text == text;
    } else {
      NotAKey(text);
      FirstCharacterStays(text);
    }
  }

  lemma NotAKey(text: string)
    requires text != "" && !IsSpace(text[0]) && !IsKeyStart(text[0])
    ensures BareKey(text).NoKey?
  {
  }

  lemma QuoteOpensString()
    ensures Quote("\"a:0") != "\"a\":0"
  {
    hide Transduce;
    TransduceStep(BODY, Plain, "\"a:0");
    TransduceStep(BODY, InString, "\"a:0"[1..]);
    TransduceStep(BODY, InString, "\"a:0"[1..][1..]);
    assert Quote("\"a:0")[2] == ':';
  }
}
