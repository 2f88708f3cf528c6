/** The two passes over one oversized atom. */
module AtomSplit {
  import opened Characters
  import opened Tokenizer
  import opened EmbeddingText
  import opened ForcedSplit

  /** The fragment being filled, which ends at `at`. */
  function Filled(current: Text, at: nat): seq<Atom>
    requires |current| <= at
  {
    if current == [] then [] else [Atom(current, at - |current|, at, ForcedTokenSplit)]
  }

  /** First pass: fill fragments with whole units; a unit that cannot fit alone is forced. */
  function FirstPass(units: seq<Text>, room: int, current: Text, at: nat): Result<seq<Atom>>
    requires |current| <= at
    decreases |units|
  {
    if units == [] then Ok(Filled(current, at))
    else
      var unit := units[0];
      var full := current != [] && Count(current + unit) > room;
      var flushed := if full then Filled(current, at) else [];
      var open := if full then [] else current;
      if open == [] && Count(unit) > room then
        var forced :- ForcedAtoms(unit, room, at);
        Prepend(flushed + forced, FirstPass(units[1..], room, [], at + |unit|))
      else
        Prepend(flushed, FirstPass(units[1..], room, open + unit, at + |unit|))
  }

  lemma {:induction false} Regrouped<T>(a: seq<T>, b: seq<T>, c: seq<T>)
    ensures a + b + c == a + (b + c)
  {
  }

  lemma {:induction false} NothingFirst<T>(s: seq<T>)
    ensures [] + s == s
  {
  }

  /** How the first pass goes on after a unit that is forced, and after any other. */
  lemma {:induction false} ForcedStep(units: seq<Text>, room: int, current: Text, at: nat)
    requires |current| <= at && units != [] && Count(units[0]) > room
    requires current != [] ==> Count(current + units[0]) > room
    ensures FirstPass(units, room, current, at) ==
      if ForcedAtoms(units[0], room, at).Overflow? then Overflow
      else Prepend(Filled(current, at) + ForcedAtoms(units[0], room, at).value,
                   FirstPass(units[1..], room, [], at + |units[0]|))
  {
    if current == [] && ForcedAtoms(units[0], room, at).Ok? {
      NothingFirst(ForcedAtoms(units[0], room, at).value);
    }
  }

  lemma {:induction false} PlainStep(units: seq<Text>, room: int, current: Text, at: nat)
    requires |current| <= at && units != []
    ensures var unit, next := units[0], at + |units[0]|;
      var full := current != [] && Count(current + unit) > room;
      ((full || current == []) && Count(unit) > room)
      || FirstPass(units, room, current, at)
         == if full then Prepend(Filled(current, at), FirstPass(units[1..], room, unit, next))
            else FirstPass(units[1..], room, current + unit, next)
  {
    NothingFirst(units[0]);
    PrependNil(FirstPass(units[1..], room, current + units[0], at + |units[0]|));
  }

  predicate Full(current: Text, unit: Text, room: int) {
    current != [] && Count(current + unit) > room
  }

  /** The unit is forced: it does not join what is open and does not fit alone. */
  predicate IsForced(current: Text, unit: Text, room: int) {
    (Full(current, unit, room) || current == []) && Count(unit) > room
  }

  /** The fragments and the open text after one more unit. */
  predicate Filling(before: seq<Atom>, current: Text, unit: Text, at: nat, room: int, after: seq<Atom>, open: Text)
    requires |current| <= at
  {
    if IsForced(current, unit, room) then
      ForcedAtoms(unit, room, at).Ok?
      && after == before + Filled(current, at) + ForcedAtoms(unit, room, at).value && open == []
    else if Full(current, unit, room) then after == before + Filled(current, at) && open == unit
    else after == before && open == current + unit
  }

  lemma {:induction false} FillStep(all: Result<seq<Atom>>, units: seq<Text>, room: int, before: seq<Atom>, current: Text,
                                    at: nat, after: seq<Atom>, open: Text)
    requires |current| <= at && units != []
    requires all == Prepend(before, FirstPass(units, room, current, at))
    requires Filling(before, current, units[0], at, room, after, open)
    ensures |open| <= at + |units[0]|
    ensures all == Prepend(after, FirstPass(units[1..], room, open, at + |units[0]|))
  {
    var rest := FirstPass(units[1..], room, open, at + |units[0]|);
    if IsForced(current, units[0], room) {
      ForcedStep(units, room, current, at);
      AddForced(before, Filled(current, at), ForcedAtoms(units[0], room, at).value, rest);
    } else {
      PlainStep(units, room, current, at);
      PrependTwice(before, Filled(current, at), rest);
    }
  }

  lemma {:induction false} FillFails(all: Result<seq<Atom>>, units: seq<Text>, room: int, before: seq<Atom>, current: Text, at: nat)
    requires |current| <= at && units != []
    requires all == Prepend(before, FirstPass(units, room, current, at))
    requires IsForced(current, units[0], room) && ForcedAtoms(units[0], room, at).Overflow?
    ensures all == Overflow
  {
    ForcedStep(units, room, current, at);
  }

  /** One unit: what is open is closed when the unit does not join it, and a unit that does
      not fit alone is forced. */
  method FillUnit(context: seq<Text>, unit: Text, hardMax: int, at: nat, fragments: seq<Atom>, current: Text)
    returns (r: Result<seq<Atom>>, open: Text)
    requires |current| <= at
    ensures var room := Room(context, [], hardMax);
      if r.Ok? then Filling(fragments, current, unit, at, room, r.value, open)
      else IsForced(current, unit, room) && ForcedAtoms(unit, room, at).Overflow?
  {
    var filled := fragments;
    open := current;
    FitsRoom(context, [], current + unit, hardMax);
    FitsRoom(context, [], unit, hardMax);
    if current != [] && !Fits(context, [], current + unit, hardMax) {
      filled := filled + [Atom(current, at - |current|, at, ForcedTokenSplit)];
      open := [];
    }
    if open == [] && !Fits(context, [], unit, hardMax) {
      assert filled == fragments + Filled(current, at);
      var forced := ForceTokenUnits(context, unit, at, hardMax, []);
      if forced.Overflow? {
        return Overflow, [];
      }
      return Ok(filled + forced.value), [];
    }
    NothingFirst(unit);
    return Ok(filled), open + unit;
  }

  method FillFragments(context: seq<Text>, units: seq<Text>, start: nat, hardMax: int)
    returns (r: Result<seq<Atom>>)
    ensures r == FirstPass(units, Room(context, [], hardMax), [], start)
  {
    ghost var room := Room(context, [], hardMax);
    ghost var all := FirstPass(units, room, [], start);
    var fragments: seq<Atom> := [];
    var current: Text := [];
    var at := start;
    PrependNil(all);
    assert units[0..] == units;
    for k := 0 to |units|
      invariant |current| <= at
      invariant all == Prepend(fragments, FirstPass(units[k..], room, current, at))
    {
      assert units[k..][0] == units[k] && units[k..][1..] == units[k + 1..];
      var filled, open := FillUnit(context, units[k], hardMax, at, fragments, current);
      if filled.Overflow? {
        FillFails(all, units[k..], room, fragments, current, at);
        return Overflow;
      }
      FillStep(all, units[k..], room, fragments, current, at, filled.value, open);
      fragments, current, at := filled.value, open, at + |units[k]|;
    }
    FillEnds(all, units[|units|..], room, fragments, current, at);
    if current != [] {
      fragments := fragments + [Atom(current, at - |current|, at, ForcedTokenSplit)];
    }
    return Ok(fragments);
  }

  lemma {:induction false} FillEnds(all: Result<seq<Atom>>, units: seq<Text>, room: int, done: seq<Atom>, current: Text, at: nat)
    requires |current| <= at && units == [] && all == Prepend(done, FirstPass(units, room, current, at))
    ensures all == Ok(done + Filled(current, at)) && (current == [] ==> all == Ok(done))
  {
    assert done + [] == done;
  }

  lemma {:induction false} AddForced(before: seq<Atom>, flushed: seq<Atom>, forced: seq<Atom>, rest: Result<seq<Atom>>)
    ensures Prepend(before, Prepend(flushed + forced, rest)) == Prepend(before + flushed + forced, rest)
  {
    PrependTwice(before, flushed + forced, rest);
    assert before + (flushed + forced) == before + flushed + forced;
  }

  lemma {:induction false} FirstPassSucceeds(units: seq<Text>, room: int, current: Text, at: nat)
    requires room >= 1 && |current| <= at
    ensures FirstPass(units, room, current, at).Ok?
    decreases |units|
  {
    if units != [] {
      var unit := units[0];
      var full := current != [] && Count(current + unit) > room;
      var open := if full then [] else current;
      ForcedSucceeds(unit, room, at);
      FirstPassSucceeds(units[1..], room, [], at + |unit|);
      FirstPassSucceeds(units[1..], room, open + unit, at + |unit|);
    }
  }

  /** A sequence of fragments that loses nothing of `text`, sits end to end, and fits. */
  predicate Cover(atoms: seq<Atom>, text: Text, from: nat, room: int) {
    && Flatten(AtomTexts(atoms)) == text
    && Tiles(atoms, from, from + |text|)
    && NoneEmpty(AtomTexts(atoms))
    && EachWithin(AtomTexts(atoms), room)
  }

  lemma {:induction false} CoverAppend(a: seq<Atom>, b: seq<Atom>, text: Text, more: Text, from: nat, room: int)
    requires Cover(a, text, from, room) && Cover(b, more, from + |text|, room)
    ensures Cover(a + b, text + more, from, room)
  {
    AtomTextsAppend(a, b);
    TilesAppend(a, b, from, from + |text|, from + |text| + |more|);
  }

  lemma {:induction false} CoverFilled(current: Text, at: nat, room: int)
    requires |current| <= at && (current == [] || Count(current) <= room)
    ensures Cover(Filled(current, at), current, at - |current|, room)
  {
    if current != [] {
      var atom := Atom(current, at - |current|, at, ForcedTokenSplit);
      assert AtomTexts([atom]) == [current];
      assert Flatten([current]) == current + [] == current;
      assert Tiles([atom][1..], at, at);
    }
  }

  lemma {:induction false} CoverForced(value: Text, room: int, offset: nat)
    requires ForcedAtoms(value, room, offset).Ok?
    ensures Cover(ForcedAtoms(value, room, offset).value, value, offset, room)
  {
    ForcedPieces(value, room, offset);
  }

  lemma {:induction false} CoverBehind(current: Text, at: nat, tail: seq<Atom>, more: Text, room: int)
    requires |current| <= at && (current == [] || Count(current) <= room) && Cover(tail, more, at, room)
    ensures Cover(Filled(current, at) + tail, current + more, at - |current|, room)
  {
    CoverFilled(current, at, room);
    CoverAppend(Filled(current, at), tail, current, more, at - |current|, room);
  }

  lemma {:induction false} ForcedUnitCovers(units: seq<Text>, room: int, current: Text, at: nat, tail: seq<Atom>)
    requires |current| <= at && units != [] && (current == [] || Count(current) <= room)
    requires Count(units[0]) > room && (current != [] ==> Count(current + units[0]) > room)
    requires FirstPass(units, room, current, at).Ok?
    requires FirstPass(units[1..], room, [], at + |units[0]|) == Ok(tail)
    requires Cover(tail, Flatten(units[1..]), at + |units[0]|, room)
    ensures Cover(FirstPass(units, room, current, at).value, current + Flatten(units), at - |current|, room)
  {
    ForcedStep(units, room, current, at);
    CoverForced(units[0], room, at);
    var forced := ForcedAtoms(units[0], room, at).value;
    CoverAppend(forced, tail, units[0], Flatten(units[1..]), at, room);
    CoverBehind(current, at, forced + tail, units[0] + Flatten(units[1..]), room);
    Regrouped(Filled(current, at), forced, tail);
  }

  lemma {:induction false} PlainUnitCovers(units: seq<Text>, room: int, current: Text, at: nat, open: Text, tail: seq<Atom>)
    requires |current| <= at && units != [] && (current == [] || Count(current) <= room)
    requires current != [] && Count(current + units[0]) > room ==> Count(units[0]) <= room && open == units[0]
    requires !(current != [] && Count(current + units[0]) > room) ==>
      (current == [] ==> Count(units[0]) <= room) && open == current + units[0]
    requires FirstPass(units[1..], room, open, at + |units[0]|) == Ok(tail)
    requires Cover(tail, open + Flatten(units[1..]), at + |units[0]| - |open|, room)
    ensures FirstPass(units, room, current, at).Ok?
    ensures Cover(FirstPass(units, room, current, at).value, current + Flatten(units), at - |current|, room)
  {
    PlainStep(units, room, current, at);
    if current != [] && Count(current + units[0]) > room {
      CoverBehind(current, at, tail, units[0] + Flatten(units[1..]), room);
    } else {
      Regrouped(current, units[0], Flatten(units[1..]));
    }
  }

  /** First-pass fragments lose nothing of the units and each fits without overlap. */
  lemma {:induction false} FirstPassCovers(units: seq<Text>, room: int, current: Text, at: nat)
    requires |current| <= at && (current == [] || Count(current) <= room)
    requires FirstPass(units, room, current, at).Ok?
    ensures Cover(FirstPass(units, room, current, at).value, current + Flatten(units), at - |current|, room)
    decreases |units|
  {
    if units == [] {
      CoverFilled(current, at, room);
      assert current + [] == current;
    } else {
      var unit, next := units[0], at + |units[0]|;
      var full := current != [] && Count(current + unit) > room;
      if (full || current == []) && Count(unit) > room {
        ForcedStep(units, room, current, at);
        FirstPassCovers(units[1..], room, [], next);
        NothingFirst(Flatten(units[1..]));
        ForcedUnitCovers(units, room, current, at, FirstPass(units[1..], room, [], next).value);
      } else {
        var open := if full then unit else current + unit;
        PlainStep(units, room, current, at);
        NothingFirst(unit);
        FirstPassCovers(units[1..], room, open, next);
        PlainUnitCovers(units, room, current, at, open, FirstPass(units[1..], room, open, next).value);
      }
    }
  }

  // ---- Second pass ----

  function LastText(parts: seq<Atom>, previous: Text): Text {
    if parts == [] then previous else parts[|parts| - 1].text
  }

  /** A fragment that does not fit behind the overlap carried over from the previous
      one is forced once more. */
  function Rebound(fragment: Atom, room: int, overlap: nat, previous: Text): Result<seq<Atom>> {
    var left := room - Carry(previous, overlap);
    if Count(fragment.text) <= left then Ok([fragment])
    else ForcedAtoms(fragment.text, left, fragment.start)
  }

  function SecondPass(fragments: seq<Atom>, room: int, overlap: nat, previous: Text): Result<seq<Atom>>
    decreases |fragments|
  {
    if fragments == [] then Ok([])
    else
      var head :- Rebound(fragments[0], room, overlap, previous);
      Prepend(head, SecondPass(fragments[1..], room, overlap, LastText(head, previous)))
  }

  /** Every fragment fits together with the overlap it will really carry: the tail of
      the fragment before it. */
  predicate Carried(parts: seq<Atom>, room: int, overlap: nat, previous: Text) {
    parts == [] || (
      && Carry(previous, overlap) + Count(parts[0].text) <= room
      && Carried(parts[1..], room, overlap, parts[0].text))
  }

  lemma {:induction false} CarriedAppend(a: seq<Atom>, b: seq<Atom>, room: int, overlap: nat, previous: Text)
    requires Carried(a, room, overlap, previous)
    requires Carried(b, room, overlap, LastText(a, previous))
    ensures Carried(a + b, room, overlap, previous)
  {
    if a == [] {
      assert a + b == b;
    } else {
      assert (a + b)[1..] == a[1..] + b;
      CarriedAppend(a[1..], b, room, overlap, a[0].text);
    }
  }

  /** The pieces of one fragment that fits without overlap also fit behind each other's
      tails: two neighbours together hold no more tokens than the fragment they came from. */
  lemma {:induction false} PiecesCarried(parts: seq<Atom>, room: int, overlap: nat, previous: Text)
    requires Count(previous) + SumCounts(AtomTexts(parts)) <= room
    ensures Carried(parts, room, overlap, previous)
  {
    if parts != [] {
      assert AtomTexts(parts)[1..] == AtomTexts(parts[1..]);
      PiecesCarried(parts[1..], room, overlap, parts[0].text);
    }
  }

  lemma {:induction false} ReboundCarries(fragment: Atom, room: int, overlap: nat, previous: Text)
    requires fragment.text != [] && Count(fragment.text) <= room
    requires fragment.end == fragment.start + |fragment.text|
    requires Rebound(fragment, room, overlap, previous).Ok?
    ensures var parts := Rebound(fragment, room, overlap, previous).value;
      && parts != []
      && Carried(parts, room, overlap, previous)
      && Cover(parts, fragment.text, fragment.start, room)
  {
    var left := room - Carry(previous, overlap);
    var parts := Rebound(fragment, room, overlap, previous).value;
    if Count(fragment.text) <= left {
      assert AtomTexts(parts) == [fragment.text];
      assert Flatten([fragment.text]) == fragment.text + [] == fragment.text;
      assert Tiles(parts[1..], fragment.end, fragment.end);
      assert Carried(parts[1..], room, overlap, fragment.text);
    } else {
      CoverForced(fragment.text, left, fragment.start);
      assert Flatten<Character>([]) == [];
      assert AtomTexts(parts)[0] == parts[0].text;
      assert AtomTexts(parts)[1..] == AtomTexts(parts[1..]);
      ForcedPieces(fragment.text, left, fragment.start);
      PiecesCarried(parts[1..], room, overlap, parts[0].text);
    }
  }

  lemma {:induction false} SecondPassSucceeds(fragments: seq<Atom>, room: int, overlap: nat, previous: Text)
    requires room >= overlap + 1
    ensures SecondPass(fragments, room, overlap, previous).Ok?
    decreases |fragments|
  {
    if fragments != [] {
      var fragment := fragments[0];
      ForcedSucceeds(fragment.text, room - Carry(previous, overlap), fragment.start);
      var head := Rebound(fragment, room, overlap, previous).value;
      SecondPassSucceeds(fragments[1..], room, overlap, LastText(head, previous));
    }
  }

  lemma {:induction false} SecondPassCarries(
    fragments: seq<Atom>, text: Text, from: nat, room: int, overlap: nat, previous: Text)
    requires Cover(fragments, text, from, room)
    requires SecondPass(fragments, room, overlap, previous).Ok?
    ensures var parts := SecondPass(fragments, room, overlap, previous).value;
      Carried(parts, room, overlap, previous) && Cover(parts, text, from, room)
    decreases |fragments|
  {
    if fragments != [] {
      var fragment, more := fragments[0], fragments[1..];
      assert AtomTexts(fragments)[0] == fragment.text;
      assert AtomTexts(fragments)[1..] == AtomTexts(more);
      var rest := Flatten(AtomTexts(more));
      assert Cover(more, rest, fragment.end, room);
      ReboundCarries(fragment, room, overlap, previous);
      var head := Rebound(fragment, room, overlap, previous).value;
      SecondPassCarries(more, rest, fragment.end, room, overlap, LastText(head, previous));
      var tail := SecondPass(more, room, overlap, LastText(head, previous)).value;
      CarriedAppend(head, tail, room, overlap, previous);
      CoverAppend(head, tail, fragment.text, rest, from, room);
    }
  }

  method BoundFragment(context: seq<Text>, fragment: Atom, hardMax: int, overlap: nat, previous: Text)
    returns (r: Result<seq<Atom>>)
    ensures r == Rebound(fragment, Room(context, [], hardMax), overlap, previous)
    ensures r.Ok? && fragment.text != [] ==> r.value != []
  {
    var carried := TailOf(previous, overlap);
    FitsRoom(context, carried, fragment.text, hardMax);
    TailCount(previous, overlap);
    assert Room(context, carried, hardMax) == Room(context, [], hardMax) - Carry(previous, overlap);
    if Fits(context, carried, fragment.text, hardMax) {
      r := Ok([fragment]);
    } else {
      r := ForceTokenUnits(context, fragment.text, fragment.start, hardMax, carried);
    }
  }

  method BoundFragments(context: seq<Text>, fragments: seq<Atom>, hardMax: int, overlap: nat)
    returns (r: Result<seq<Atom>>)
    requires NoneEmpty(AtomTexts(fragments))
    ensures r == SecondPass(fragments, Room(context, [], hardMax), overlap, [])
  {
    ghost var room := Room(context, [], hardMax);
    var bounded: seq<Atom> := [];
    var previous: Text := [];
    PrependNil(SecondPass(fragments, room, overlap, []));
    assert fragments[0..] == fragments;
    for k := 0 to |fragments|
      invariant previous == LastText(bounded, [])
      invariant SecondPass(fragments, room, overlap, [])
             == Prepend(bounded, SecondPass(fragments[k..], room, overlap, previous))
    {
      assert fragments[k..][1..] == fragments[k + 1..];
      assert AtomTexts(fragments)[k] != [];
      var parts := BoundFragment(context, fragments[k], hardMax, overlap, previous);
      if parts.Overflow? {
        return Overflow;
      }
      PrependTwice(bounded, parts.value,
                   SecondPass(fragments[k + 1..], room, overlap, LastText(parts.value, previous)));
      bounded := bounded + parts.value;
      previous := bounded[|bounded| - 1].text;
    }
    assert fragments[|fragments|..] == [] && bounded + [] == bounded;
    return Ok(bounded);
  }

  function SplitAtom(atom: Atom, room: int, overlap: nat): Result<seq<Atom>> {
    var fragments :- FirstPass(SplitUnits(atom.text), room, [], atom.start);
    SecondPass(fragments, room, overlap, [])
  }

  /** With room for the overlap and one more token, splitting an atom never fails. */
  lemma {:induction false} SplitAtomSucceeds(atom: Atom, room: int, overlap: nat)
    requires room >= overlap + 1
    ensures SplitAtom(atom, room, overlap).Ok?
  {
    FirstPassSucceeds(SplitUnits(atom.text), room, [], atom.start);
    SecondPassSucceeds(FirstPass(SplitUnits(atom.text), room, [], atom.start).value, room, overlap, []);
  }

  /** The fragments of an atom hold exactly its visible characters in order, lie end to
      end from the atom's start, and each fits behind the tail of the one before it. */
  lemma {:induction false} SplitAtomCarries(atom: Atom, room: int, overlap: nat)
    requires SplitAtom(atom, room, overlap).Ok?
    ensures var parts := SplitAtom(atom, room, overlap).value;
      && Carried(parts, room, overlap, [])
      && Ink(Flatten(AtomTexts(parts))) == Ink(atom.text)
      && Tiles(parts, atom.start, atom.start + |Flatten(AtomTexts(parts))|)
      && EachWithin(AtomTexts(parts), room)
      && NoneEmpty(AtomTexts(parts))
  {
    var units := SplitUnits(atom.text);
    SplitUnitsInk(atom.text);
    FirstPassCovers(units, room, [], atom.start);
    assert [] + Flatten(units) == Flatten(units);
    var fragments := FirstPass(units, room, [], atom.start).value;
    SecondPassCarries(fragments, Flatten(units), atom.start, room, overlap, []);
  }

  method ForceSplitAtom(context: seq<Text>, atom: Atom, hardMax: int, overlap: nat)
    returns (r: Result<seq<Atom>>)
    ensures r == SplitAtom(atom, Room(context, [], hardMax), overlap)
  {
    var fragments := FillFragments(context, SplitUnits(atom.text), atom.start, hardMax);
    if fragments.Overflow? {
      return Overflow;
    }
    FirstPassCovers(SplitUnits(atom.text), Room(context, [], hardMax), [], atom.start);
    r := BoundFragments(context, fragments.value, hardMax, overlap);
  }
}
