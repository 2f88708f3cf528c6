/** When the offsets of forced fragments point at their own text. */
module OffsetDrift {
  import opened Characters
  import opened ForcedSplit
  import opened AtomSplit

  /** The stretch between the part's offsets is the part. */
  predicate Points(text: Text, base: nat, part: Atom) {
    base <= part.start <= part.end <= base + |text| && text[part.start - base..part.end - base] == part.text
  }

  predicate AllPoint(text: Text, base: nat, parts: seq<Atom>) {
    forall i | 0 <= i < |parts| :: Points(text, base, parts[i])
  }

  predicate LiesAt(text: Text, at: nat, part: Text) {
    at + |part| <= |text| && text[at..at + |part|] == part
  }

  lemma {:induction false} SameParts(a: Text, b: Text, c: Text, d: Text)
    requires |a| == |c|
    ensures a + b == c + d <==> a == c && b == d
  {
    assert (a + b)[..|a|] == a && (a + b)[|a|..] == b;
    assert (c + d)[..|c|] == c && (c + d)[|c|..] == d;
  }

  lemma {:induction false} LiesInTwo(text: Text, at: nat, first: Text, rest: Text)
    ensures LiesAt(text, at, first + rest) <==> LiesAt(text, at, first) && LiesAt(text, at + |first|, rest)
  {
    var n, m := |first|, |first| + |rest|;
    if at + m <= |text| {
      assert text[at..at + m] == text[at..at + n] + text[at + n..at + m];
      SameParts(text[at..at + n], text[at + n..at + m], first, rest);
    }
  }

  lemma {:induction false} PointsFirst(text: Text, base: nat, first: Atom, rest: seq<Atom>)
    ensures AllPoint(text, base, [first] + rest) <==> Points(text, base, first) && AllPoint(text, base, rest)
  {
    var parts := [first] + rest;
    if AllPoint(text, base, parts) {
      assert Points(text, base, parts[0]);
      forall i | 0 <= i < |rest|
        ensures Points(text, base, rest[i])
      {
        assert rest[i] == parts[i + 1];
      }
    }
  }

  lemma {:induction false} PointsIffLies(text: Text, base: nat, part: Atom)
    requires base <= part.start <= base + |text| && part.end == part.start + |part.text|
    ensures Points(text, base, part) <==> LiesAt(text, part.start - base, part.text)
  {
  }

  lemma {:induction false} TextsJoined(parts: seq<Atom>)
    requires parts != []
    ensures Flatten(AtomTexts(parts)) == parts[0].text + Flatten(AtomTexts(parts[1..]))
  {
    assert parts == [parts[0]] + parts[1..];
    PieceTexts(parts[0], parts[1..]);
  }

  lemma {:induction false} TilesStep(text: Text, base: nat, first: Atom, rest: seq<Atom>, more: Text)
    requires base <= first.start <= base + |text| && first.end == first.start + |first.text|
    requires first.end <= base + |text| ==> (AllPoint(text, base, rest) <==> LiesAt(text, first.end - base, more))
    ensures AllPoint(text, base, [first] + rest) <==> LiesAt(text, first.start - base, first.text + more)
  {
    PointsFirst(text, base, first, rest);
    PointsIffLies(text, base, first);
    LiesInTwo(text, first.start - base, first.text, more);
  }

  /** Parts that lie end to end point at their texts exactly when these, put together, are
      what the text holds there. */
  lemma {:induction false} TilesPoint(parts: seq<Atom>, text: Text, base: nat, from: nat, to: nat)
    requires Tiles(parts, from, to) && base <= from <= base + |text|
    ensures AllPoint(text, base, parts) <==> LiesAt(text, from - base, Flatten(AtomTexts(parts)))
    decreases |parts|
  {
    if parts != [] {
      var first, rest := parts[0], parts[1..];
      TextsJoined(parts);
      if first.end <= base + |text| {
        TilesPoint(rest, text, base, first.end, to);
      }
      TilesStep(text, base, first, rest, Flatten(AtomTexts(rest)));
      assert parts == [first] + rest;
    }
  }

  // ---- Which white space is dropped ----

  predicate HasInk(s: Text) {
    exists j :: 0 <= j < |s| && !s[j].Space?
  }

  lemma {:induction false} HasInkIff(s: Text)
    ensures HasInk(s) <==> DropLeadingSpace(s) != []
    ensures DropLeadingSpace(s) != [] ==> !DropLeadingSpace(s)[0].Space?
  {
    DropLeadingSpaceStarts(s);
    var n := |s| - |DropLeadingSpace(s)|;
    if DropLeadingSpace(s) != [] {
      assert s[n] == DropLeadingSpace(s)[0];
    } else {
      assert s[..n] == s;
    }
  }

  /** Something visible follows a boundary. */
  predicate CutsAt(value: Text, boundary: Boundary, i: nat) {
    i < |value| && boundary.Ends(value[i]) && HasInk(value[i + 1..])
  }

  predicate Cuts(value: Text, boundary: Boundary) {
    exists i | 0 <= i < |value| :: CutsAt(value, boundary, i)
  }

  /** White space right after a boundary, and something visible after that. */
  predicate DropsAt(value: Text, boundary: Boundary, i: nat) {
    CutsAt(value, boundary, i) && value[i + 1].Space?
  }

  predicate Drops(value: Text, boundary: Boundary) {
    exists i | 0 <= i < |value| :: DropsAt(value, boundary, i)
  }

  /** White space that splitting drops is followed by something visible: after a sentence
      end; or, in text of one sentence, after a clause end; or, in text of one clause, at
      its beginning. */
  predicate Drifts(value: Text) {
    if Cuts(value, SentenceEnd) then Drops(value, SentenceEnd)
    else if Cuts(value, ClauseEnd) then Drops(value, ClauseEnd)
    else HasInk(value) && value[0].Space?
  }

  lemma {:induction false} FirstBoundary(value: Text, boundary: Boundary)
    requires value != []
    ensures var n := ToBoundary(value, boundary);
      && (forall i | 0 <= i < n - 1 :: !boundary.Ends(value[i]))
      && (n < |value| ==> boundary.Ends(value[n - 1]))
  {
    if !boundary.Ends(value[0]) && |value| > 1 {
      FirstBoundary(value[1..], boundary);
      forall i | 0 <= i < ToBoundary(value, boundary) - 1
        ensures !boundary.Ends(value[i])
      {
        assert i > 0 ==> value[i] == value[1..][i - 1];
      }
    }
  }

  lemma {:induction false} InkBehind(value: Text, n: nat, m: nat)
    requires n <= m <= |value| && HasInk(value[m..])
    ensures HasInk(value[n..])
  {
    var j :| 0 <= j < |value[m..]| && !value[m..][j].Space?;
    assert value[n..][m - n + j] == value[m..][j];
  }

  /** Splitting gives more than one part exactly when something visible follows a boundary. */
  lemma {:induction false} SplitsIff(value: Text, boundary: Boundary)
    ensures |SplitAfter(value, boundary)| > 1 <==> Cuts(value, boundary)
  {
    if value != [] {
      var n := ToBoundary(value, boundary);
      var rest := value[n..];
      FirstBoundary(value, boundary);
      HasInkIff(rest);
      assert |SplitAfter(value, boundary)| > 1 <==> HasInk(rest);
      if HasInk(rest) {
        assert CutsAt(value, boundary, n - 1);
      }
      if i: nat :| CutsAt(value, boundary, i) {
        InkBehind(value, n, i + 1);
      }
    }
  }

  lemma {:induction false} DropsShift(value: Text, boundary: Boundary, n: nat, i: nat)
    requires n <= |value|
    ensures DropsAt(value, boundary, n + i) <==> DropsAt(value[n..], boundary, i)
  {
    if n + i < |value| {
      assert value[n..][i + 1..] == value[n + i + 1..];
    }
  }

  lemma {:induction false} DropsFirst(value: Text, boundary: Boundary)
    requires value != []
    ensures var n := ToBoundary(value, boundary);
      Drops(value, boundary) <==> DropsAt(value, boundary, n - 1) || Drops(value[n..], boundary)
  {
    var n := ToBoundary(value, boundary);
    FirstBoundary(value, boundary);
    if i: nat :| DropsAt(value, boundary, i) {
      if i >= n {
        DropsShift(value, boundary, n, i - n);
      }
    }
    if i: nat :| DropsAt(value[n..], boundary, i) {
      DropsShift(value, boundary, n, i);
    }
  }

  lemma {:induction false} SameBeginning(a: Text, b: Text, c: Text)
    ensures a + b <= a + c <==> b <= c
  {
    assert (a + c)[..|a|] == a && (a + b)[..|a|] == a;
    assert (a + b)[|a|..] == b && (a + c)[|a|..] == c;
    if a + b <= a + c {
      assert forall i | 0 <= i < |b| :: b[i] == (a + b)[|a| + i] && c[i] == (a + c)[|a| + i];
    }
  }

  lemma {:induction false} NothingDropped(value: Text, boundary: Boundary)
    requires !HasInk(value)
    ensures !Drops(value, boundary)
  {
  }

  /** The parts put together begin where the text begins. */
  lemma {:induction false} PartsBegin(value: Text, boundary: Boundary)
    requires value != []
    ensures Flatten(SplitAfter(value, boundary)) != [] && Flatten(SplitAfter(value, boundary))[0] == value[0]
  {
    var parts := SplitAfter(value, boundary);
    assert parts[0] != [] && parts[0][0] == value[0];
    assert Flatten(parts) == parts[0] + Flatten(parts[1..]);
  }

  lemma {:induction false} PartsFirst(value: Text, boundary: Boundary)
    requires value != []
    ensures var n := ToBoundary(value, boundary);
      Flatten(SplitAfter(value, boundary)) <= value
      <==> Flatten(SplitAfter(DropLeadingSpace(value[n..]), boundary)) <= value[n..]
  {
    var n := ToBoundary(value, boundary);
    assert value == value[..n] + value[n..];
    SameBeginning(value[..n], Flatten(SplitAfter(DropLeadingSpace(value[n..]), boundary)), value[n..]);
  }

  /** Parts put together are the beginning of the text exactly when nothing dropped matters. */
  lemma {:induction false} PartsExactIff(value: Text, boundary: Boundary)
    ensures Flatten(SplitAfter(value, boundary)) <= value <==> !Drops(value, boundary)
    decreases |value|
  {
    if value != [] {
      var n := ToBoundary(value, boundary);
      var rest := value[n..];
      var tail := DropLeadingSpace(rest);
      HasInkIff(rest);
      FirstBoundary(value, boundary);
      DropsFirst(value, boundary);
      PartsFirst(value, boundary);
      if tail == [] {
        NothingDropped(rest, boundary);
      } else if rest[0].Space? {
        PartsBegin(tail, boundary);
        assert DropsAt(value, boundary, n - 1);
      } else {
        PartsExactIff(rest, boundary);
      }
    } else {
      NothingDropped(value, boundary);
    }
  }

  lemma {:induction false} DroppedAlready(s: Text)
    ensures DropLeadingSpace(DropLeadingSpace(s)) == DropLeadingSpace(s)
  {
    HasInkIff(s);
  }

  lemma {:induction false} WordThenRest(value: Text)
    requires DropLeadingSpace(value) != []
    ensures var text := DropLeadingSpace(value); var rest := DropLeadingSpace(text[InkRun(text)..]);
      && |rest| < |value| && |rest| <= |text| && text == text[..|text| - |rest|] + rest
  {
    var text := DropLeadingSpace(value);
    var after := text[InkRun(text)..];
    FirstWord(value);
    assert after[|after| - |DropLeadingSpace(after)|..] == DropLeadingSpace(after) by {
      DropLeadingSpaceStarts(after);
    }
    EndOfEnd(text, InkRun(text), DropLeadingSpace(after));
  }

  lemma {:induction false} WordsAreAll(value: Text)
    ensures Flatten(SplitWords(value)) == DropLeadingSpace(value)
    ensures SplitWords(value) == [] <==> DropLeadingSpace(value) == []
    decreases |value|
  {
    var text := DropLeadingSpace(value);
    if text != [] {
      var after := text[InkRun(text)..];
      var rest := DropLeadingSpace(after);
      WordThenRest(value);
      WordsAreAll(rest);
      DroppedAlready(after);
    }
  }

  lemma {:induction false} WordsExactIff(value: Text)
    requires HasInk(value)
    ensures Flatten(SplitWords(value)) <= value <==> !value[0].Space?
  {
    WordsAreAll(value);
    HasInkIff(value);
  }

  /** Units put together are the beginning of the text exactly when none of the dropped
      white space is followed by something visible. */
  lemma {:induction false} UnitsExactIff(value: Text)
    ensures Flatten(SplitUnits(value)) <= value <==> !Drifts(value)
  {
    SplitsIff(value, SentenceEnd);
    SplitsIff(value, ClauseEnd);
    PartsExactIff(value, SentenceEnd);
    PartsExactIff(value, ClauseEnd);
    WordsAreAll(value);
    HasInkIff(value);
    if HasInk(value) {
      WordsExactIff(value);
    } else {
      assert Flatten([value]) == value + [];
    }
  }

  lemma {:induction false} PartsAreShort(value: Text, boundary: Boundary)
    ensures |Flatten(SplitAfter(value, boundary))| <= |value|
    decreases |value|
  {
    if value != [] {
      var n := ToBoundary(value, boundary);
      var tail := DropLeadingSpace(value[n..]);
      DropLeadingSpaceInk(value[n..]);
      PartsAreShort(tail, boundary);
    }
  }

  lemma {:induction false} UnitsAreShort(value: Text)
    ensures |Flatten(SplitUnits(value))| <= |value|
  {
    PartsAreShort(value, SentenceEnd);
    PartsAreShort(value, ClauseEnd);
    WordsAreAll(value);
    DropLeadingSpaceInk(value);
    assert Flatten([value]) == value + [] == value;
  }

  /** The fragments of an atom point at their own text exactly when its units, put together,
      are what the content holds at the atom's offset. */
  lemma {:induction false} FragmentsPoint(content: Text, atom: Atom, room: int, overlap: nat)
    requires SplitAtom(atom, room, overlap).Ok? && atom.start <= |content|
    ensures AllPoint(content, 0, SplitAtom(atom, room, overlap).value)
       <==> LiesAt(content, atom.start, Flatten(SplitUnits(atom.text)))
  {
    var units := SplitUnits(atom.text);
    FirstPassCovers(units, room, [], atom.start);
    assert [] + Flatten(units) == Flatten(units);
    SecondPassCarries(FirstPass(units, room, [], atom.start).value, Flatten(units), atom.start, room, overlap, []);
    TilesPoint(SplitAtom(atom, room, overlap).value, content, 0, atom.start, atom.start + |Flatten(units)|);
  }

  /** Any white space after any sentence end makes offsets drift as soon as something
      visible comes after it. */
  lemma {:induction false} SpaceAfterSentenceDrifts(before: Text, space: Text, after: Text)
    requires before != [] && SentenceEnd.Ends(before[|before| - 1])
    requires space != [] && AllSpace(space) && HasInk(after)
    ensures Drifts(before + space + after)
  {
    var text := before + space + after;
    var i := |before| - 1;
    assert text[i] == before[i] && text[i + 1] == space[0];
    assert text[i + 1..] == space + after && (space + after)[|space|..] == after;
    InkBehind(space + after, 0, |space|);
    assert (space + after)[0..] == space + after;
    assert DropsAt(text, SentenceEnd, i);
  }
}
