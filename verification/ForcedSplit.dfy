/** Splitting one oversized atom: natural units first, then the longest prefixes that fit,
    then a second pass that makes room for the overlap carried between fragments. */
module ForcedSplit {
  import opened Characters
  import opened Tokenizer
  import opened EmbeddingText

  datatype Reason = ParagraphBreak | ListItem | TableRow | HeadingOnly | ForcedTokenSplit

  datatype Atom = Atom(text: Text, start: nat, end: nat, reason: Reason)

  /** Overflow is the error raised when the context alone leaves no room for text. */
  datatype Result<+T> = Ok(value: T) | Overflow {
    predicate IsFailure() { Overflow? }
    function PropagateFailure<U>(): Result<U> requires Overflow? { Overflow }
    function Extract(): T requires Ok? { value }
  }

  function Prepend<T>(done: seq<T>, rest: Result<seq<T>>): Result<seq<T>> {
    if rest.Ok? then Ok(done + rest.value) else Overflow
  }

  lemma {:induction false} PrependNil<T>(r: Result<seq<T>>)
    ensures Prepend([], r) == r
  {
    assert r.Ok? ==> [] + r.value == r.value;
  }

  lemma {:induction false} PrependTwice<T>(a: seq<T>, b: seq<T>, r: Result<seq<T>>)
    ensures Prepend(a, Prepend(b, r)) == Prepend(a + b, r)
  {
    assert r.Ok? ==> a + (b + r.value) == a + b + r.value;
  }

  function AtomTexts(atoms: seq<Atom>): seq<Text> {
    seq(|atoms|, i requires 0 <= i < |atoms| => atoms[i].text)
  }

  /** The atoms sit end to end from offset `from` to offset `to`. */
  predicate Tiles(atoms: seq<Atom>, from: nat, to: nat) {
    if atoms == [] then from == to
    else
      && atoms[0].start == from
      && atoms[0].end == from + |atoms[0].text|
      && Tiles(atoms[1..], atoms[0].end, to)
  }

  lemma {:induction false} TilesAppend(a: seq<Atom>, b: seq<Atom>, from: nat, middle: nat, to: nat)
    requires Tiles(a, from, middle) && Tiles(b, middle, to)
    ensures Tiles(a + b, from, to)
  {
    if a == [] {
      assert a + b == b;
    } else {
      assert (a + b)[1..] == a[1..] + b;
      TilesAppend(a[1..], b, a[0].end, middle, to);
    }
  }

  lemma {:induction false} AtomTextsAppend(a: seq<Atom>, b: seq<Atom>)
    ensures AtomTexts(a + b) == AtomTexts(a) + AtomTexts(b)
    ensures Flatten(AtomTexts(a + b)) == Flatten(AtomTexts(a)) + Flatten(AtomTexts(b))
  {
    assert AtomTexts(a + b) == AtomTexts(a) + AtomTexts(b);
    FlattenAppend(AtomTexts(a), AtomTexts(b));
  }

  // ---- Natural units ----

  datatype Boundary = SentenceEnd | ClauseEnd {
    predicate Ends(c: Character) {
      match this
      case SentenceEnd => c.Single? && c.code in {0x3002, 0xFF01, 0xFF1F, 0xFF1B, 46, 33, 63, 59}
      case ClauseEnd => c.Single? && c.code in {0xFF0C, 44}
    }
  }

  /** Length of the shortest prefix ending at a boundary, or of everything. */
  function ToBoundary(value: Text, boundary: Boundary): (n: nat)
    ensures n <= |value| && (value != [] ==> n > 0)
  {
    if value == [] then 0
    else if boundary.Ends(value[0]) then 1
    else 1 + ToBoundary(value[1..], boundary)
  }

  /** Cuts after every boundary, dropping the white space that follows it. */
  function SplitAfter(value: Text, boundary: Boundary): seq<Text>
    decreases |value|
  {
    if value == [] then []
    else
      var n := ToBoundary(value, boundary);
      DropLeadingSpaceInk(value[n..]);
      [value[..n]] + SplitAfter(DropLeadingSpace(value[n..]), boundary)
  }

  function InkRun(value: Text): (n: nat)
    ensures n <= |value| && (value != [] && !value[0].Space? ==> n > 0)
  {
    if value == [] || value[0].Space? then 0 else 1 + InkRun(value[1..])
  }

  /** Visible runs, each with the white space after it. */
  function SplitWords(value: Text): seq<Text>
    decreases |value|
  {
    var text := DropLeadingSpace(value);
    DropLeadingSpaceInk(value);
    if text == [] then []
    else
      var n := InkRun(text);
      var rest := DropLeadingSpace(text[n..]);
      DropLeadingSpaceInk(text[n..]);
      DropLeadingSpaceStarts(value);
      [text[..|text| - |rest|]] + SplitWords(rest)
  }

  lemma {:induction false} SpaceFirst(s: Text, n: nat)
    requires 0 < n <= |s| && s[0].Space? && AllSpace(s[1..][..n - 1])
    ensures AllSpace(s[..n])
  {
    forall i | 0 <= i < n
      ensures s[i].Space?
    {
      assert i > 0 ==> s[i] == s[1..][..n - 1][i - 1];
    }
  }

  lemma {:induction false} DropLeadingSpaceStarts(s: Text)
    ensures var rest := DropLeadingSpace(s);
      && (rest != [] ==> !rest[0].Space?)
      && |rest| <= |s| && rest == s[|s| - |rest|..]
      && AllSpace(s[..|s| - |rest|])
  {
    if s != [] && s[0].Space? {
      var rest := DropLeadingSpace(s[1..]);
      var n := |s| - |rest|;
      DropLeadingSpaceStarts(s[1..]);
      assert s[1..][n - 1..] == s[n..];
      SpaceFirst(s, n);
    }
  }

  function SplitUnits(value: Text): seq<Text> {
    var sentences := SplitAfter(value, SentenceEnd);
    if |sentences| > 1 then sentences
    else
      var clauses := SplitAfter(value, ClauseEnd);
      if |clauses| > 1 then clauses
      else
        var words := SplitWords(value);
        if words != [] then words else [value]
  }

  predicate NoneEmpty(parts: seq<Text>) {
    forall i | 0 <= i < |parts| :: parts[i] != []
  }

  lemma {:induction false} SplitAfterInk(value: Text, boundary: Boundary)
    ensures Ink(Flatten(SplitAfter(value, boundary))) == Ink(value)
    ensures NoneEmpty(SplitAfter(value, boundary))
    decreases |value|
  {
    if value != [] {
      var n := ToBoundary(value, boundary);
      var rest := DropLeadingSpace(value[n..]);
      DropLeadingSpaceInk(value[n..]);
      SplitAfterInk(rest, boundary);
      InkAppend(value[..n], Flatten(SplitAfter(rest, boundary)));
      InkAppend(value[..n], value[n..]);
      assert value == value[..n] + value[n..];
    }
  }

  lemma {:induction false} EndOfEnd(text: Text, n: nat, rest: Text)
    requires n <= |text| && |rest| <= |text| - n && rest == text[n..][|text| - n - |rest|..]
    ensures text == text[..|text| - |rest|] + rest
  {
    var k := |text| - n - |rest|;
    assert text[n..][k..] == text[n + k..];
  }

  /** The first unit takes something, and the rest keeps the other visible characters. */
  lemma {:induction false} FirstWord(value: Text)
    requires DropLeadingSpace(value) != []
    ensures var text := DropLeadingSpace(value); var rest := DropLeadingSpace(text[InkRun(text)..]);
      |rest| < |text| <= |value| && Ink(text[..|text| - |rest|]) + Ink(rest) == Ink(value)
  {
    var text := DropLeadingSpace(value);
    var after := text[InkRun(text)..];
    var rest := DropLeadingSpace(after);
    DropLeadingSpaceInk(value);
    DropLeadingSpaceStarts(value);
    DropLeadingSpaceStarts(after);
    EndOfEnd(text, InkRun(text), rest);
    InkAppend(text[..|text| - |rest|], rest);
  }

  lemma {:induction false} SplitWordsInk(value: Text)
    ensures Ink(Flatten(SplitWords(value))) == Ink(value)
    ensures NoneEmpty(SplitWords(value))
    decreases |value|
  {
    var text := DropLeadingSpace(value);
    if text == [] {
      DropLeadingSpaceInk(value);
    } else {
      var rest := DropLeadingSpace(text[InkRun(text)..]);
      FirstWord(value);
      SplitWordsInk(rest);
      InkAppend(text[..|text| - |rest|], Flatten(SplitWords(rest)));
    }
  }

  /** Units lose nothing but white space. */
  lemma {:induction false} SplitUnitsInk(value: Text)
    ensures Ink(Flatten(SplitUnits(value))) == Ink(value)
    ensures value != [] ==> NoneEmpty(SplitUnits(value))
  {
    SplitAfterInk(value, SentenceEnd);
    SplitAfterInk(value, ClauseEnd);
    SplitWordsInk(value);
    assert Flatten([value]) == value + [] == value;
  }

  // ---- Longest fitting prefixes ----

  /** Tokens left for raw text. */
  function Room(context: seq<Text>, overlap: Text, hardMax: int): int {
    hardMax - SumCounts(context) - Count(overlap)
  }

  lemma {:induction false} FitsRoom(context: seq<Text>, overlap: Text, raw: Text, hardMax: int)
    ensures Fits(context, overlap, raw, hardMax) <==> Count(raw) <= Room(context, overlap, hardMax)
  {
    SerializedCount(context, overlap, raw);
  }

  function ForcedAtoms(value: Text, limit: int, offset: nat): Result<seq<Atom>>
    decreases |value|
  {
    if value == [] then Ok([])
    else
      var n := LongestFit(value, limit);
      if n == 0 then Overflow
      else Prepend([Atom(value[..n], offset, offset + n, ForcedTokenSplit)],
                   ForcedAtoms(value[n..], limit, offset + n))
  }

  /** The binary search for the longest prefix of value[start..] that fits. */
  method LongestFitting(context: seq<Text>, value: Text, start: nat, hardMax: int, overlap: Text)
    returns (best: nat)
    requires start < |value|
    ensures start <= best <= |value|
    ensures best - start == LongestFit(value[start..], Room(context, overlap, hardMax))
  {
    ghost var limit := Room(context, overlap, hardMax);
    ghost var rest := value[start..];
    var low, high := start + 1, |value|;
    best := start;
    while low <= high
      invariant start < low <= high + 1 && high <= |value| && best == low - 1
      invariant best > start ==> Count(rest[..best - start]) <= limit
      invariant high < |value| ==> Count(rest[..high + 1 - start]) > limit
      decreases high + 1 - low
    {
      var middle := (low + high) / 2;
      assert value[start..middle] == rest[..middle - start];
      FitsRoom(context, overlap, value[start..middle], hardMax);
      if Fits(context, overlap, value[start..middle], hardMax) {
        best := middle;
        low := middle + 1;
      } else {
        high := middle - 1;
      }
    }
    LongestFitUnique(rest, limit, best - start);
  }

  lemma {:induction false} ForcedUnfold(value: Text, limit: int, offset: nat)
    requires value != []
    ensures var n := LongestFit(value, limit);
      ForcedAtoms(value, limit, offset)
      == if n == 0 then Overflow
         else Prepend([Atom(value[..n], offset, offset + n, ForcedTokenSplit)], ForcedAtoms(value[n..], limit, offset + n))
  {
  }

  lemma {:induction false} SliceOfRest(value: Text, start: nat, best: nat)
    requires start <= best <= |value|
    ensures value[start..][..best - start] == value[start..best] && value[start..][best - start..] == value[best..]
  {
  }

  /** One more piece. */
  lemma {:induction false} ForcedMore(output: seq<Atom>, value: Text, limit: int, offset: nat, start: nat, best: nat)
    requires start < |value| && start <= best <= |value| && best - start == LongestFit(value[start..], limit)
    ensures Prepend(output, ForcedAtoms(value[start..], limit, offset + start))
         == if best == start then Overflow
            else Prepend(output + [Atom(value[start..best], offset + start, offset + best, ForcedTokenSplit)],
                         ForcedAtoms(value[best..], limit, offset + best))
  {
    ForcedUnfold(value[start..], limit, offset + start);
    SliceOfRest(value, start, best);
    PrependTwice(output, [Atom(value[start..best], offset + start, offset + best, ForcedTokenSplit)],
                 ForcedAtoms(value[best..], limit, offset + best));
  }

  method ForceTokenUnits(context: seq<Text>, value: Text, offset: nat, hardMax: int, overlap: Text)
    returns (r: Result<seq<Atom>>)
    ensures r == ForcedAtoms(value, Room(context, overlap, hardMax), offset)
  {
    ghost var limit := Room(context, overlap, hardMax);
    var output: seq<Atom> := [];
    var start: nat := 0;
    PrependNil(ForcedAtoms(value, limit, offset));
    assert value[0..] == value;
    while start < |value|
      invariant start <= |value|
      invariant ForcedAtoms(value, limit, offset)
             == Prepend(output, ForcedAtoms(value[start..], limit, offset + start))
    {
      var best := LongestFitting(context, value, start, hardMax, overlap);
      ForcedMore(output, value, limit, offset, start, best);
      if best == start {
        return Overflow;
      }
      var atom := Atom(value[start..best], offset + start, offset + best, ForcedTokenSplit);
      output := output + [atom];
      start := best;
    }
    assert value[start..] == [] && output + [] == output;
    return Ok(output);
  }

  /** Exactly when the "context alone" error is raised. */
  lemma {:induction false} ForcedSucceeds(value: Text, limit: int, offset: nat)
    ensures ForcedAtoms(value, limit, offset).Ok?
       <==> value == [] || limit >= 1 || (limit == 0 && Count(value) == 0)
    decreases |value|
  {
    if value != [] {
      var n := LongestFit(value, limit);
      LongestFitMaximal(value, limit);
      assert Tokens(0, value[..1]) == Tokens(0, []) || Count(value[..1]) == 1 + Tokens(0, value[..1][1..])
          || Count(value[..1]) == 1 + Tokens(RUN - 1, value[..1][1..]);
      if n == 0 {
        assert Count(value[..1]) > limit;
        CountPrefix(value, 1, |value|);
        assert value[..|value|] == value;
      } else {
        ForcedSucceeds(value[n..], limit, offset + n);
        if limit >= 0 {
          LongestFitSplits(value, limit);
        }
      }
    }
  }

  predicate EachWithin(parts: seq<Text>, limit: int) {
    forall i | 0 <= i < |parts| :: Count(parts[i]) <= limit
  }

  /** The pieces are the text cut up: nothing lost, end to end, none empty, each within the
      limit, the token count split exactly, all but the last piece full. */
  predicate PiecesOf(atoms: seq<Atom>, text: Text, offset: nat, limit: int) {
    var pieces := AtomTexts(atoms);
    && Flatten(pieces) == text && Tiles(atoms, offset, offset + |text|)
    && NoneEmpty(pieces) && EachWithin(pieces, limit)
    && SumCounts(pieces) == Count(text)
    && forall i | 0 <= i < |pieces| - 1 :: Count(pieces[i]) == limit
  }

  lemma {:induction false} PieceTexts(first: Atom, rest: seq<Atom>)
    ensures AtomTexts([first] + rest) == [first.text] + AtomTexts(rest)
    ensures Flatten(AtomTexts([first] + rest)) == first.text + Flatten(AtomTexts(rest))
    ensures SumCounts(AtomTexts([first] + rest)) == Count(first.text) + SumCounts(AtomTexts(rest))
  {
    assert AtomTexts([first] + rest) == [first.text] + AtomTexts(rest);
    assert ([first.text] + AtomTexts(rest))[1..] == AtomTexts(rest);
  }

  lemma {:induction false} PieceFirst(first: Atom, rest: seq<Atom>, text: Text, tail: Text, limit: int)
    requires first.text != [] && first.end == first.start + |first.text| && Count(first.text) <= limit
    requires text == first.text + tail && Count(text) == Count(first.text) + Count(tail)
    requires PiecesOf(rest, tail, first.end, limit)
    requires tail != [] ==> Count(first.text) == limit
    ensures PiecesOf([first] + rest, text, first.start, limit)
  {
    PieceTexts(first, rest);
    var pieces := AtomTexts([first] + rest);
    assert ([first] + rest)[1..] == rest;
    assert tail == [] ==> rest == [];
    forall i | 0 <= i < |pieces| - 1
      ensures Count(pieces[i]) == limit
    {
      assert i > 0 ==> pieces[i] == AtomTexts(rest)[i - 1];
    }
  }

  lemma {:induction false} FitNeedsRoom(value: Text, limit: int)
    requires LongestFit(value, limit) > 0
    ensures limit >= 0
  {
    LongestFitMaximal(value, limit);
  }

  /** The first piece and the others. */
  lemma {:induction false} ForcedCut(value: Text, limit: int, offset: nat, atoms: seq<Atom>)
    returns (first: Atom, tail: Text, rest: seq<Atom>)
    requires value != [] && ForcedAtoms(value, limit, offset) == Ok(atoms)
    ensures atoms == [first] + rest && value == first.text + tail && first.text != [] && |tail| < |value|
    ensures first.start == offset && first.end == offset + |first.text|
    ensures ForcedAtoms(tail, limit, first.end) == Ok(rest)
    ensures Count(first.text) <= limit && (tail != [] ==> Count(first.text) == limit)
    ensures Count(value) == Count(first.text) + Count(tail) && (tail != [] ==> !tail[0].Space?)
  {
    var n := LongestFit(value, limit);
    ForcedUnfold(value, limit, offset);
    assert limit >= 0 by {
      FitNeedsRoom(value, limit);
    }
    LongestFitSplits(value, limit);
    first, tail := Atom(value[..n], offset, offset + n, ForcedTokenSplit), value[n..];
    rest := ForcedAtoms(tail, limit, offset + n).value;
  }

  lemma {:induction false} PiecesFrom(value: Text, limit: int, offset: nat, atoms: seq<Atom>)
    requires ForcedAtoms(value, limit, offset) == Ok(atoms)
    ensures PiecesOf(atoms, value, offset, limit)
    decreases |value|
  {
    if value != [] {
      var first, tail, rest := ForcedCut(value, limit, offset, atoms);
      PiecesFrom(tail, limit, first.end, rest);
      PieceFirst(first, rest, value, tail, limit);
    }
  }

  lemma {:induction false} ForcedPieces(value: Text, limit: int, offset: nat)
    requires ForcedAtoms(value, limit, offset).Ok?
    ensures var atoms := ForcedAtoms(value, limit, offset).value; var pieces := AtomTexts(atoms);
      && Flatten(pieces) == value
      && Tiles(atoms, offset, offset + |value|)
      && NoneEmpty(pieces)
      && EachWithin(pieces, limit)
      && SumCounts(pieces) == Count(value)
      && (forall i | 0 <= i < |pieces| - 1 :: Count(pieces[i]) == limit)
  {
    PiecesFrom(value, limit, offset, ForcedAtoms(value, limit, offset).value);
  }

  lemma {:induction false} OneMore(n: nat, limit: nat)
    ensures (n + 1) * limit == n * limit + limit
  {
  }

  lemma {:induction false} SumWithin(parts: seq<Text>, limit: nat)
    requires EachWithin(parts, limit)
    ensures SumCounts(parts) <= |parts| * limit
  {
    if parts != [] {
      assert Count(parts[0]) <= limit;
      SumWithin(parts[1..], limit);
      OneMore(|parts| - 1, limit);
    }
  }

  lemma {:induction false} SumFull(parts: seq<Text>, limit: nat)
    requires forall i | 0 <= i < |parts| :: Count(parts[i]) == limit
    ensures SumCounts(parts) == |parts| * limit
  {
    if parts != [] {
      SumFull(parts[1..], limit);
      OneMore(|parts| - 1, limit);
    }
  }

  lemma {:induction false} FlattenCount(parts: seq<Text>)
    ensures Count(Flatten(parts)) <= SumCounts(parts)
  {
    if parts != [] {
      FlattenCount(parts[1..]);
      CountAppend(parts[0], Flatten(parts[1..]));
    }
  }

  /** No other way of cutting the value into pieces that fit uses fewer pieces. */
  lemma {:induction false} ForcedFewest(value: Text, limit: nat, offset: nat, other: seq<Text>)
    requires ForcedAtoms(value, limit, offset).Ok?
    requires Flatten(other) == value && EachWithin(other, limit)
    ensures |ForcedAtoms(value, limit, offset).value| <= |other|
  {
    if Count(value) <= limit {
      WholeFits(value, limit, offset);
      assert value == [] || other != [];
    } else {
      ForcedPieces(value, limit, offset);
      LastPieceCounts(value, limit, offset);
      FullButLast(AtomTexts(ForcedAtoms(value, limit, offset).value), limit);
      FlattenCount(other);
      SumWithin(other, limit);
      FewerFactors(|ForcedAtoms(value, limit, offset).value| - 1, |other|, limit);
    }
  }

  lemma {:induction false} WholeFits(value: Text, limit: int, offset: nat)
    requires Count(value) <= limit
    ensures ForcedAtoms(value, limit, offset)
         == Ok(if value == [] then [] else [Atom(value, offset, offset + |value|, ForcedTokenSplit)])
  {
    if value != [] {
      assert LongestFit(value, limit) == |value|;
      assert value[|value|..] == [] && value[..|value|] == value;
      var atom := Atom(value, offset, offset + |value|, ForcedTokenSplit);
      assert ForcedAtoms([], limit, offset + |value|) == Ok([]);
      assert [atom] + [] == [atom];
    }
  }

  lemma {:induction false} FullButLast(pieces: seq<Text>, limit: nat)
    requires pieces != [] && Count(pieces[|pieces| - 1]) > 0
    requires forall i | 0 <= i < |pieces| - 1 :: Count(pieces[i]) == limit
    ensures (|pieces| - 1) * limit < SumCounts(pieces)
  {
    var k := |pieces| - 1;
    SumFull(pieces[..k], limit);
    assert pieces == pieces[..k] + [pieces[k]];
    SumCountsAppend(pieces[..k], [pieces[k]]);
    assert SumCounts([pieces[k]]) == Count(pieces[k]) + SumCounts([]);
  }

  lemma {:induction false} FewerFactors(k: nat, m: nat, limit: nat)
    requires k * limit < m * limit
    ensures k < m
  {
    if m <= k {
      MoreFactors(m, k, limit);
    }
  }

  lemma {:induction false} MoreFactors(m: nat, k: nat, limit: nat)
    requires m <= k
    ensures m * limit <= k * limit
  {
    assert (k - m) * limit >= 0;
  }

  lemma {:induction false} LastOfRest(first: Atom, rest: seq<Atom>)
    requires rest != []
    ensures ([first] + rest)[|rest|] == rest[|rest| - 1]
  {
  }

  /** The last piece carries at least one token unless the value carries none. */
  lemma {:induction false} LastPieceCounts(value: Text, limit: nat, offset: nat)
    requires Count(value) > 0 && ForcedAtoms(value, limit, offset).Ok?
    ensures var atoms := ForcedAtoms(value, limit, offset).value;
      atoms != [] && Count(atoms[|atoms| - 1].text) > 0
    decreases |value|
  {
    var atoms := ForcedAtoms(value, limit, offset).value;
    var first, tail, rest := ForcedCut(value, limit, offset, atoms);
    if tail != [] {
      NoTokensIsSpace(tail);
      LastPieceCounts(tail, limit, first.end);
      LastOfRest(first, rest);
    }
  }
}
