/** Marker search shared by the three streaming parsers: where complete markers
    occur in a text, and which suffix of a text may still grow into one. */
module Markers {

  /** `marker` occurs in `text` with its first character at `i`. */
  predicate At(text: string, i: int, marker: string) {
    0 <= i && i + |marker| <= |text| && text[i..i + |marker|] == marker
  }

  /** From `i` to its end, `text` is a non-empty proper prefix of `marker`. */
  predicate PartialAt(text: string, i: int, marker: string) {
    0 <= i < |text| && |text| - i < |marker| && text[i..] == marker[..|text| - i]
  }

  /** The text that a list of chunks adds up to. */
  function Concat(chunks: seq<string>): string {
    if chunks == [] then "" else chunks[0] + Concat(chunks[1..])
  }

  ghost predicate Occurs(text: string, markers: seq<string>, i: int) {
    exists k :: 0 <= k < |markers| && At(text, i, markers[k])
  }

  ghost predicate Pending(text: string, markers: seq<string>, i: int) {
    exists k :: 0 <= k < |markers| && PartialAt(text, i, markers[k])
  }

  ghost predicate Contains(text: string, markers: seq<string>) {
    exists i :: Occurs(text, markers, i)
  }

  ghost predicate NonEmpty(markers: seq<string>) {
    forall k :: 0 <= k < |markers| ==> markers[k] != ""
  }

  datatype Match = NoMatch | Match(index: nat, which: nat)

  /** `str.find`: the first occurrence of `marker` at or after `from`. */
  function Find(text: string, marker: string, from: nat): (r: int)
    ensures r == -1 || (from <= r && At(text, r, marker))
    ensures forall i :: from <= i && (r == -1 || i < r) ==> !At(text, i, marker)
    decreases |text| - from
  {
    if |text| < from then -1
    else if At(text, from, marker) then from
    else Find(text, marker, from + 1)
  }

  lemma OccursSnoc(text: string, markers: seq<string>, i: int)
    requires markers != []
    ensures var last := |markers| - 1;
            Occurs(text, markers, i) <==> Occurs(text, markers[..last], i) || At(text, i, markers[last])
    ensures var last := |markers| - 1;
            Pending(text, markers, i) <==> Pending(text, markers[..last], i) || PartialAt(text, i, markers[last])
  {
    hide At;
    hide PartialAt;
  }

  /** The earliest occurrence of any marker; on a tie the first marker listed. */
  function FirstMatch(text: string, markers: seq<string>): (r: Match)
    ensures r.NoMatch? ==> forall i :: !Occurs(text, markers, i)
    ensures r.Match? ==> r.index <= |text| && Occurs(text, markers, r.index)
    ensures r.Match? ==> r.which < |markers| && At(text, r.index, markers[r.which])
    ensures r.Match? ==> forall i :: i < r.index ==> !Occurs(text, markers, i)
    ensures r.Match? ==> forall k :: 0 <= k < r.which ==> !At(text, r.index, markers[k])
  {
    if markers == [] then NoMatch
    else
      var last := |markers| - 1;
      var before := FirstMatch(text, markers[..last]);
      var here := Find(text, markers[last], 0);
      assert forall i {:trigger Occurs(text, markers, i)} ::
          Occurs(text, markers, i) <==> Occurs(text, markers[..last], i) || At(text, i, markers[last]) by {
        hide *;
        forall i { OccursSnoc(text, markers, i); }
      }
      if here != -1 && (before.NoMatch? || here < before.index) then
        assert !Occurs(text, markers[..last], here);
        assert forall k :: 0 <= k < last ==> markers[k] == markers[..last][k] && !At(text, here, markers[..last][k]);
        Match(here, last)
      else before
  }

  /** Length of the longest suffix of `text` that is a proper prefix of `marker`. */
  function LongestPrefix(text: string, marker: string): (n: nat)
    ensures n <= |text|
    ensures n > 0 ==> PartialAt(text, |text| - n, marker)
    ensures forall i :: PartialAt(text, i, marker) ==> |text| - n <= i
  {
    LongestPrefixUpTo(text, marker, if |text| < |marker| - 1 then |text| else |marker| - 1)
  }

  function LongestPrefixUpTo(text: string, marker: string, length: int): (n: nat)
    requires length <= |text| && length <= |marker| - 1
    ensures n <= |text|
    ensures n > 0 ==> PartialAt(text, |text| - n, marker)
    ensures forall i :: PartialAt(text, i, marker) && |text| - length <= i ==> |text| - n <= i
    decreases length
  {
    if length <= 0 then 0
    else if text[|text| - length..] == marker[..length] then length
    else LongestPrefixUpTo(text, marker, length - 1)
  }

  /** Length of the longest suffix of `text` that is a proper prefix of some marker. */
  function Retained(text: string, markers: seq<string>): (n: nat)
    ensures n <= |text|
    ensures n > 0 ==> Pending(text, markers, |text| - n)
    ensures forall i :: Pending(text, markers, i) ==> |text| - n <= i
  {
    if markers == [] then 0
    else
      var last := |markers| - 1;
      var before := Retained(text, markers[..last]);
      var here := LongestPrefix(text, markers[last]);
      assert forall i {:trigger Pending(text, markers, i)} ::
          Pending(text, markers, i) <==> Pending(text, markers[..last], i) || PartialAt(text, i, markers[last]) by {
        hide *;
        forall i { OccursSnoc(text, markers, i); }
      }
      if here > before then here else before
  }

  // ----- how occurrences move when text is appended or a prefix is dropped -----

  lemma SplitAppended(front: string, back: string, n: nat)
    requires n <= |back|
    ensures (front + back)[..|front| + n] == front + back[..n]
    ensures (front + back)[|front| + n..] == back[n..]
  {
  }

  lemma AtFits(text: string, i: int, marker: string)
    requires At(text, i, marker)
    ensures 0 <= i && i + |marker| <= |text|
  {
  }

  lemma AtSelf(text: string)
    ensures At(text, 0, text)
  {
  }

  lemma AtExtends(text: string, more: string, i: int, marker: string)
    requires i + |marker| <= |text|
    ensures At(text + more, i, marker) <==> At(text, i, marker)
  {
    if 0 <= i {
      assert (text + more)[i..i + |marker|] == text[i..i + |marker|];
    }
  }

  lemma OccursExtends(text: string, more: string, markers: seq<string>, i: int)
    requires NonEmpty(markers) && Occurs(text, markers, i)
    ensures Occurs(text + more, markers, i) && i < |text|
  {
    hide At;
    var k :| 0 <= k < |markers| && At(text, i, markers[k]);
    AtFits(text, i, markers[k]);
    AtExtends(text, more, i, markers[k]);
  }

  lemma OccursFrom(text: string, markers: seq<string>, i: int, k: nat)
    requires k < |markers| && At(text, i, markers[k])
    ensures Occurs(text, markers, i)
  {
  }

  lemma OccursShifts(dropped: string, text: string, markers: seq<string>, i: int)
    requires 0 <= i
    ensures Occurs(dropped + text, markers, |dropped| + i) <==> Occurs(text, markers, i)
  {
    hide At;
    forall k | 0 <= k < |markers|
      ensures At(dropped + text, |dropped| + i, markers[k]) <==> At(text, i, markers[k])
    {
      AtShifts(dropped, text, i, markers[k]);
    }
  }

  lemma AtShifts(dropped: string, text: string, i: int, marker: string)
    requires 0 <= i
    ensures At(dropped + text, |dropped| + i, marker) <==> At(text, i, marker)
  {
    if i + |marker| <= |text| {
      assert (dropped + text)[|dropped| + i..|dropped| + i + |marker|] == text[i..i + |marker|];
    }
  }

  /** A marker that starts in `text` but ends beyond it leaves a partial marker at the end of `text`. */
  lemma OverhangIsPartial(text: string, more: string, i: int, marker: string)
    requires 0 <= i < |text| < i + |marker| && At(text + more, i, marker)
    ensures PartialAt(text, i, marker)
  {
    var whole := text + more;
    assert whole[i..i + |marker|][..|text| - i] == text[i..];
  }

  lemma PartialShifts(dropped: string, text: string, i: int, marker: string)
    requires 0 <= i
    ensures PartialAt(dropped + text, |dropped| + i, marker) <==> PartialAt(text, i, marker)
  {
    if i < |text| {
      assert (dropped + text)[|dropped| + i..] == text[i..];
    }
  }

  lemma PendingShifts(dropped: string, text: string, markers: seq<string>, i: int)
    requires 0 <= i
    ensures Pending(dropped + text, markers, |dropped| + i) <==> Pending(text, markers, i)
  {
    hide PartialAt;
    forall k | 0 <= k < |markers|
      ensures PartialAt(dropped + text, |dropped| + i, markers[k]) <==> PartialAt(text, i, markers[k])
    {
      PartialShifts(dropped, text, i, markers[k]);
    }
  }

  lemma PartialShortens(text: string, more: string, i: int, marker: string)
    requires PartialAt(text + more, i, marker) && i < |text|
    ensures PartialAt(text, i, marker)
  {
    var whole := text + more;
    assert whole[i..][..|text| - i] == text[i..];
    assert marker[..|whole| - i][..|text| - i] == marker[..|text| - i];
  }

  /** With no complete marker in `text`, every marker completed or begun by `more`
      starts inside the retained suffix of `text`, and is visible from there. */
  lemma RetainedDecides(text: string, more: string, markers: seq<string>, i: int)
    requires FirstMatch(text, markers).NoMatch?
    ensures var cut := |text| - Retained(text, markers);
            (Occurs(text + more, markers, i) <==> cut <= i && Occurs(text[cut..] + more, markers, i - cut)) &&
            (Pending(text + more, markers, i) <==> cut <= i && Pending(text[cut..] + more, markers, i - cut))
  {
    hide At; hide PartialAt; hide FirstMatch; hide Retained;
    var cut := |text| - Retained(text, markers);
    var out, held := text[..cut], text[cut..];
    assert text + more == out + (held + more);
    forall k: nat | k < |markers|
      ensures At(text + more, i, markers[k]) <==> cut <= i && At(held + more, i - cut, markers[k])
      ensures PartialAt(text + more, i, markers[k]) <==> cut <= i && PartialAt(held + more, i - cut, markers[k])
    {
      if cut <= i {
        AtShifts(out, held + more, i - cut, markers[k]);
        PartialShifts(out, held + more, i - cut, markers[k]);
      } else if At(text + more, i, markers[k]) || PartialAt(text + more, i, markers[k]) {
        SeenFromText(text, more, markers, i, k);
        assert false;
      }
    }
  }

  lemma SeenFromText(text: string, more: string, markers: seq<string>, i: int, k: nat)
    requires k < |markers| && i < |text|
    requires At(text + more, i, markers[k]) || PartialAt(text + more, i, markers[k])
    ensures Occurs(text, markers, i) || Pending(text, markers, i)
  {
    if PartialAt(text + more, i, markers[k]) {
      PartialShortens(text, more, i, markers[k]);
    } else if i + |markers[k]| <= |text| {
      AtExtends(text, more, i, markers[k]);
    } else {
      OverhangIsPartial(text, more, i, markers[k]);
    }
  }

  /** So one search of the retained suffix plus `more` decides the search of the whole text. */
  lemma RetainedDecidesMatch(text: string, more: string, markers: seq<string>)
    requires FirstMatch(text, markers).NoMatch?
    ensures var cut := |text| - Retained(text, markers);
            match FirstMatch(text[cut..] + more, markers)
            case Match(index, _) =>
              FirstMatch(text + more, markers).Match? && FirstMatch(text + more, markers).index == cut + index
            case NoMatch =>
              FirstMatch(text + more, markers).NoMatch? &&
              Retained(text + more, markers) == Retained(text[cut..] + more, markers)
  {
    hide *;
    var cut := |text| - Retained(text, markers);
    var buffer, grown := text[cut..] + more, text + more;
    var small, large := FirstMatch(buffer, markers), FirstMatch(grown, markers);
    if large.Match? { RetainedDecides(text, more, markers, large.index); }
    if small.Match? { RetainedDecides(text, more, markers, cut + small.index); }
    var n, m := Retained(buffer, markers), Retained(grown, markers);
    if n > 0 { RetainedDecides(text, more, markers, cut + (|buffer| - n)); }
    if m > 0 { RetainedDecides(text, more, markers, |grown| - m); }
  }

  // ----- marker tables whose markers can be told apart at their first character -----

  /** Every marker begins with '<', has no other '<', and none is a prefix of another. */
  ghost predicate Headed(markers: seq<string>) {
    && (forall k :: 0 <= k < |markers| ==> markers[k] != "" && markers[k][0] == '<')
    && (forall k, j :: 0 <= k < |markers| && 0 < j < |markers[k]| ==> markers[k][j] != '<')
    && (forall k, l :: 0 <= k < |markers| && 0 <= l < |markers| && k != l ==> !(markers[k] <= markers[l]))
  }

  lemma AtHead(text: string, i: int, marker: string, j: nat)
    requires At(text, i, marker) && j < |marker|
    ensures i + j < |text| && text[i + j] == marker[j]
  {
    assert text[i..i + |marker|][j] == text[i + j];
  }

  lemma PartialHead(text: string, i: int, marker: string, j: nat)
    requires PartialAt(text, i, marker) && i + j < |text|
    ensures j < |marker| && text[i + j] == marker[j]
  {
    assert text[i..][j] == marker[..|text| - i][j];
  }

  /** With a headed table the earliest marker of a text stays the earliest, and stays the
      only marker at its place, whatever follows. */
  lemma EarliestStays(text: string, more: string, markers: seq<string>)
    requires Headed(markers) && FirstMatch(text, markers).Match?
    ensures var m := FirstMatch(text, markers);
            (forall i :: i < m.index ==> !Occurs(text + more, markers, i) && !Pending(text + more, markers, i)) &&
            (forall k :: 0 <= k < |markers| ==> (At(text + more, m.index, markers[k]) <==> k == m.which))
  {
    hide FirstMatch; hide At; hide Occurs; hide Pending;
    var m := FirstMatch(text, markers);
    AtFits(text, m.index, markers[m.which]);
    AtExtends(text, more, m.index, markers[m.which]);
    forall i | i < m.index ensures !Occurs(text + more, markers, i) && !Pending(text + more, markers, i) {
      NoEarlierMarker(text, more, markers, i);
      NoEarlierPartial(text, more, markers, i);
    }
    forall k | 0 <= k < |markers| && At(text + more, m.index, markers[k]) ensures k == m.which {
      OneMarkerAt(text + more, m.index, markers, k, m.which);
    }
  }

  lemma NoEarlierMarker(text: string, more: string, markers: seq<string>, i: int)
    requires Headed(markers) && FirstMatch(text, markers).Match? && i < FirstMatch(text, markers).index
    ensures !Occurs(text + more, markers, i)
  {
    hide FirstMatch; hide At;
    var m := FirstMatch(text, markers);
    AtFits(text, m.index, markers[m.which]);
    AtHead(text, m.index, markers[m.which], 0);
    assert !Occurs(text, markers, i);
    forall k | 0 <= k < |markers| ensures !At(text + more, i, markers[k]) {
      if At(text + more, i, markers[k]) {
        AtFits(text + more, i, markers[k]);
        if i + |markers[k]| <= m.index {
          AtExtends(text, more, i, markers[k]);
          assert false;
        } else {
          AtHead(text + more, i, markers[k], m.index - i);
          assert false;
        }
      }
    }
  }

  lemma NoEarlierPartial(text: string, more: string, markers: seq<string>, i: int)
    requires Headed(markers) && FirstMatch(text, markers).Match? && i < FirstMatch(text, markers).index
    ensures !Pending(text + more, markers, i)
  {
    hide FirstMatch; hide At; hide PartialAt;
    var m := FirstMatch(text, markers);
    AtFits(text, m.index, markers[m.which]);
    AtHead(text, m.index, markers[m.which], 0);
    var whole := text + more;
    forall k | 0 <= k < |markers| ensures !PartialAt(whole, i, markers[k]) {
      if PartialAt(whole, i, markers[k]) {
        PartialHead(whole, i, markers[k], m.index - i);
        assert false;
      }
    }
  }

  /** The first occurrence of one marker does not move when text is appended. */
  lemma FindStays(text: string, more: string, marker: string, from: nat)
    requires Find(text, marker, from) != -1
    ensures Find(text + more, marker, from) == Find(text, marker, from)
  {
    hide At; hide Find;
    var e, f := Find(text, marker, from), Find(text + more, marker, from);
    AtFits(text, e, marker);
    AtExtends(text, more, e, marker);
    if f < e { AtExtends(text, more, f, marker); }
  }

  lemma OneMarkerAt(text: string, i: int, markers: seq<string>, k: nat, l: nat)
    requires Headed(markers) && k < |markers| && l < |markers|
    requires At(text, i, markers[k]) && At(text, i, markers[l])
    ensures k == l
  {
    var a, b := markers[k], markers[l];
    assert |a| <= |b| ==> text[i..i + |b|][..|a|] == text[i..i + |a|];
    assert |b| <= |a| ==> text[i..i + |a|][..|b|] == text[i..i + |b|];
  }

  /** The marker at the head of `text`, if any. */
  function HeadMarker(text: string, markers: seq<string>): (r: Match)
    ensures r.Match? ==> r.index == 0 && r.which < |markers| && At(text, 0, markers[r.which])
    ensures r.NoMatch? ==> !Occurs(text, markers, 0)
  {
    if markers == [] then NoMatch
    else
      var last := |markers| - 1;
      OccursSnoc(text, markers, 0);
      if At(text, 0, markers[last]) then Match(0, last) else HeadMarker(text, markers[..last])
  }

  lemma NoHeadMarker(text: string, markers: seq<string>)
    requires !Occurs(text, markers, 0)
    ensures HeadMarker(text, markers).NoMatch?
  {
    hide At; hide HeadMarker;
    if HeadMarker(text, markers).Match? {
      OccursFrom(text, markers, 0, HeadMarker(text, markers).which);
    }
  }
}
