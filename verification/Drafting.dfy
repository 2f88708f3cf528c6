/** The drafts of one node, and the token bound every draft keeps. */
module Drafting {
  import opened Characters
  import opened Tokenizer
  import opened EmbeddingText
  import opened ForcedSplit
  import opened AtomSplit
  import opened NodeDrafts

  /** The drafts of a forced split: each carries the tail of the fragment before it. */
  function ForcedDraft(part: Atom, overlap: nat, previous: Text, order: nat): Draft {
    var tail := if order == 0 then [] else TailTokens(previous, overlap);
    Draft(part.text, part.start, part.end, ForcedTokenSplit, tail, Count(tail), order + 1)
  }

  function ForcedDrafts(parts: seq<Atom>, overlap: nat, previous: Text, order: nat): seq<Draft> {
    if parts == [] then []
    else
      [ForcedDraft(parts[0], overlap, previous, order)]
      + ForcedDrafts(parts[1..], overlap, parts[0].text, order + 1)
  }

  /** Atoms that fit are packed; one that does not closes the pending group and is split. */
  function AtomDrafts(context: seq<Text>, p: Profile, atoms: seq<Atom>, pending: seq<Atom>): Result<seq<Draft>>
    requires p.Valid()
    decreases |atoms|
  {
    if atoms == [] then Ok(Pack(context, p, pending))
    else if Fits(context, [], atoms[0].text, p.childHardMax) then
      AtomDrafts(context, p, atoms[1..], pending + [atoms[0]])
    else
      var parts :- SplitAtom(atoms[0], Room(context, [], p.childHardMax), p.overlap);
      Prepend(Pack(context, p, pending) + ForcedDrafts(parts, p.overlap, [], 0),
              AtomDrafts(context, p, atoms[1..], []))
  }

  function DraftsOfNode(path: seq<Heading>, node: SourceNode, p: Profile): Result<seq<Draft>>
    requires p.Valid()
  {
    AtomDrafts(Context(CompactHeadingPath(path, p.headingMax).path), p, NodeAtoms(node), [])
  }

  lemma {:induction false} ForcedStep(parts: seq<Atom>, k: nat, overlap: nat, previous: Text, output: seq<Draft>)
    requires k < |parts|
    ensures output + ForcedDrafts(parts[k..], overlap, previous, k)
         == output + [ForcedDraft(parts[k], overlap, previous, k)]
            + ForcedDrafts(parts[k + 1..], overlap, parts[k].text, k + 1)
  {
    assert parts[k..][0] == parts[k] && parts[k..][1..] == parts[k + 1..];
  }

  method EmitForced(parts: seq<Atom>, overlap: nat) returns (output: seq<Draft>)
    ensures output == ForcedDrafts(parts, overlap, [], 0)
  {
    output := [];
    var previous: Text := [];
    assert parts[0..] == parts;
    for number := 0 to |parts|
      invariant ForcedDrafts(parts, overlap, [], 0)
             == output + ForcedDrafts(parts[number..], overlap, previous, number)
    {
      var part := parts[number];
      ForcedStep(parts, number, overlap, previous, output);
      var tail: Text := [];
      if number != 0 {
        tail := TailOf(previous, overlap);
      }
      output := output + [Draft(part.text, part.start, part.end, ForcedTokenSplit, tail, Count(tail), number + 1)];
      previous := part.text;
    }
  }

  method NodeDraftList(path: seq<Heading>, node: SourceNode, p: Profile) returns (r: Result<seq<Draft>>)
    requires p.Valid()
    ensures r == DraftsOfNode(path, node, p)
  {
    var compact, truncated := CompactPath(path, p.headingMax);
    var context := Context(compact);
    var atoms := NodeAtoms(node);
    var output: seq<Draft> := [];
    var pending: seq<Atom> := [];
    PrependNil(AtomDrafts(context, p, atoms, []));
    assert atoms[0..] == atoms;
    for k := 0 to |atoms|
      invariant AtomDrafts(context, p, atoms, []) == Prepend(output, AtomDrafts(context, p, atoms[k..], pending))
    {
      var atom := atoms[k];
      assert atoms[k..][0] == atom && atoms[k..][1..] == atoms[k + 1..];
      if Fits(context, [], atom.text, p.childHardMax) {
        pending := pending + [atom];
      } else {
        var packed := PackAtoms(context, p, pending);
        var parts := ForceSplitAtom(context, atom, p.childHardMax, p.overlap);
        if parts.Overflow? {
          return Overflow;
        }
        var forced := EmitForced(parts.value, p.overlap);
        PrependTwice(output, packed + forced, AtomDrafts(context, p, atoms[k + 1..], []));
        output := output + (packed + forced);
        pending := [];
      }
    }
    assert atoms[|atoms|..] == [];
    var packed := PackAtoms(context, p, pending);
    return Ok(output + packed);
  }

  /** The check made when chunks are built: the draft as it will really be serialized,
      with its own overlap, is within the hard maximum. */
  predicate DraftFits(context: seq<Text>, draft: Draft, hardMax: int) {
    Fits(context, draft.overlap, draft.raw, hardMax)
  }

  predicate DraftsFit(context: seq<Text>, drafts: seq<Draft>, hardMax: int) {
    forall i | 0 <= i < |drafts| :: DraftFits(context, drafts[i], hardMax)
  }

  lemma {:induction false} CarriedFits(context: seq<Text>, raw: Text, hardMax: int, overlap: nat, previous: Text, tail: Text)
    requires Carry(previous, overlap) + Count(raw) <= Room(context, [], hardMax)
    requires tail == [] || tail == TailTokens(previous, overlap)
    ensures Fits(context, tail, raw, hardMax)
  {
    TailCount(previous, overlap);
    FitsRoom(context, tail, raw, hardMax);
    assert Count([]) == 0;
  }

  lemma {:induction false} ForcedDraftFits(
    context: seq<Text>, part: Atom, hardMax: int, overlap: nat, previous: Text, order: nat)
    requires Carry(previous, overlap) + Count(part.text) <= Room(context, [], hardMax)
    ensures DraftFits(context, ForcedDraft(part, overlap, previous, order), hardMax)
  {
    CarriedFits(context, part.text, hardMax, overlap, previous, ForcedDraft(part, overlap, previous, order).overlap);
  }

  lemma {:induction false} ForcedDraftsFit(
    context: seq<Text>, parts: seq<Atom>, hardMax: int, overlap: nat, previous: Text, order: nat)
    requires Carried(parts, Room(context, [], hardMax), overlap, previous)
    ensures DraftsFit(context, ForcedDrafts(parts, overlap, previous, order), hardMax)
  {
    if parts != [] {
      ForcedDraftFits(context, parts[0], hardMax, overlap, previous, order);
      ForcedDraftsFit(context, parts[1..], hardMax, overlap, parts[0].text, order + 1);
    }
  }

  lemma {:induction false} PackedDraftsFit(context: seq<Text>, p: Profile, atoms: seq<Atom>)
    requires p.Valid() && AtomsFit(context, p, atoms)
    ensures DraftsFit(context, Pack(context, p, atoms), p.childHardMax)
  {
    PackingLaws(context, p, atoms);
  }

  lemma {:induction false} FittingAtom(context: seq<Text>, p: Profile, atom: Atom)
    requires Fits(context, [], atom.text, p.childHardMax)
    ensures PackedTokens(context, [atom]) <= p.childHardMax
  {
    assert AtomTexts([atom]) == [atom.text];
  }

  /** Every draft fits, including the fragments of an atom that was split twice, whose
      overlap can be longer than the one they were checked with. */
  lemma {:induction false} AtomDraftsFit(context: seq<Text>, p: Profile, atoms: seq<Atom>, pending: seq<Atom>)
    requires p.Valid() && AtomsFit(context, p, pending)
    requires AtomDrafts(context, p, atoms, pending).Ok?
    ensures DraftsFit(context, AtomDrafts(context, p, atoms, pending).value, p.childHardMax)
    decreases |atoms|
  {
    PackedDraftsFit(context, p, pending);
    if atoms != [] {
      if Fits(context, [], atoms[0].text, p.childHardMax) {
        FittingAtom(context, p, atoms[0]);
        AtomDraftsFit(context, p, atoms[1..], pending + [atoms[0]]);
      } else {
        var room := Room(context, [], p.childHardMax);
        SplitAtomCarries(atoms[0], room, p.overlap);
        ForcedDraftsFit(context, SplitAtom(atoms[0], room, p.overlap).value, p.childHardMax, p.overlap, [], 0);
        AtomDraftsFit(context, p, atoms[1..], []);
      }
    }
  }

  lemma {:induction false} AtomDraftsSucceed(context: seq<Text>, p: Profile, atoms: seq<Atom>, pending: seq<Atom>)
    requires p.Valid() && Room(context, [], p.childHardMax) >= p.overlap + 1
    ensures AtomDrafts(context, p, atoms, pending).Ok?
    decreases |atoms|
  {
    if atoms != [] {
      SplitAtomSucceeds(atoms[0], Room(context, [], p.childHardMax), p.overlap);
      AtomDraftsSucceed(context, p, atoms[1..], pending + [atoms[0]]);
      AtomDraftsSucceed(context, p, atoms[1..], []);
    }
  }

  // ---- Nothing but white space is lost ----

  function DraftsInk(drafts: seq<Draft>): Text {
    Ink(Flatten(Raws(drafts)))
  }

  lemma {:induction false} DraftsInkAppend(a: seq<Draft>, b: seq<Draft>)
    ensures DraftsInk(a + b) == DraftsInk(a) + DraftsInk(b)
  {
    assert Raws(a + b) == Raws(a) + Raws(b);
    FlattenAppend(Raws(a), Raws(b));
    InkAppend(Flatten(Raws(a)), Flatten(Raws(b)));
  }

  lemma {:induction false} AtomsInkAppend(a: seq<Atom>, b: seq<Atom>)
    ensures AtomsInk(a + b) == AtomsInk(a) + AtomsInk(b)
  {
    AtomTextsAppend(a, b);
    InkAppend(Flatten(AtomTexts(a)), Flatten(AtomTexts(b)));
  }

  lemma {:induction false} RawsFirst(drafts: seq<Draft>)
    requires drafts != []
    ensures Raws(drafts) == [drafts[0].raw] + Raws(drafts[1..])
  {
  }

  lemma {:induction false} TextsFirst(parts: seq<Atom>)
    requires parts != []
    ensures AtomTexts(parts) == [parts[0].text] + AtomTexts(parts[1..])
  {
  }

  lemma {:induction false} ForcedDraftsInk(parts: seq<Atom>, overlap: nat, previous: Text, order: nat)
    ensures Raws(ForcedDrafts(parts, overlap, previous, order)) == AtomTexts(parts)
  {
    if parts != [] {
      ForcedDraftsInk(parts[1..], overlap, parts[0].text, order + 1);
      var drafts := ForcedDrafts(parts, overlap, previous, order);
      RawsFirst(drafts);
      TextsFirst(parts);
      assert drafts[1..] == ForcedDrafts(parts[1..], overlap, parts[0].text, order + 1);
    }
  }

  lemma {:induction false} PackInk(context: seq<Text>, p: Profile, atoms: seq<Atom>)
    ensures DraftsInk(Pack(context, p, atoms)) == AtomsInk(atoms)
  {
    GroupsFlatten(context, p, atoms, []);
    assert [] + atoms == atoms;
    GroupsInk(Groups(context, p, atoms, []));
  }

  lemma {:induction false} ForcedAtomInk(atom: Atom, room: int, overlap: nat)
    requires SplitAtom(atom, room, overlap).Ok?
    ensures DraftsInk(ForcedDrafts(SplitAtom(atom, room, overlap).value, overlap, [], 0)) == AtomsInk([atom])
  {
    SplitAtomCarries(atom, room, overlap);
    ForcedDraftsInk(SplitAtom(atom, room, overlap).value, overlap, [], 0);
    OneAtomInk(atom);
  }

  lemma {:induction false} ThreeInk(a: seq<Draft>, b: seq<Draft>, c: seq<Draft>, x: seq<Atom>, y: seq<Atom>, z: seq<Atom>)
    requires DraftsInk(a) == AtomsInk(x) && DraftsInk(b) == AtomsInk(y) && DraftsInk(c) == AtomsInk(z)
    ensures DraftsInk(a + b + c) == AtomsInk(x + y + z)
  {
    DraftsInkAppend(a, b);
    DraftsInkAppend(a + b, c);
    AtomsInkAppend(x, y);
    AtomsInkAppend(x + y, z);
  }

  lemma {:induction false} Reassemble<T>(a: seq<T>, s: seq<T>)
    requires s != []
    ensures a + [s[0]] + s[1..] == a + s
  {
  }

  function SplitDrafts(atom: Atom, context: seq<Text>, p: Profile): seq<Draft>
    requires p.Valid() && SplitAtom(atom, Room(context, [], p.childHardMax), p.overlap).Ok?
  {
    ForcedDrafts(SplitAtom(atom, Room(context, [], p.childHardMax), p.overlap).value, p.overlap, [], 0)
  }

  lemma {:induction false} AtomDraftsUnfold(context: seq<Text>, p: Profile, atoms: seq<Atom>, pending: seq<Atom>)
    requires p.Valid() && atoms != [] && !Fits(context, [], atoms[0].text, p.childHardMax)
    requires AtomDrafts(context, p, atoms, pending).Ok?
    ensures SplitAtom(atoms[0], Room(context, [], p.childHardMax), p.overlap).Ok?
    ensures AtomDrafts(context, p, atoms[1..], []).Ok?
    ensures AtomDrafts(context, p, atoms, pending).value
         == Pack(context, p, pending) + SplitDrafts(atoms[0], context, p) + AtomDrafts(context, p, atoms[1..], []).value
  {
  }

  lemma {:induction false} SplitStepInk(context: seq<Text>, p: Profile, atoms: seq<Atom>, pending: seq<Atom>)
    requires p.Valid() && atoms != [] && !Fits(context, [], atoms[0].text, p.childHardMax)
    requires AtomDrafts(context, p, atoms, pending).Ok?
    requires DraftsInk(AtomDrafts(context, p, atoms[1..], []).value) == AtomsInk(atoms[1..])
    ensures DraftsInk(AtomDrafts(context, p, atoms, pending).value) == AtomsInk(pending + atoms)
  {
    AtomDraftsUnfold(context, p, atoms, pending);
    PackInk(context, p, pending);
    ForcedAtomInk(atoms[0], Room(context, [], p.childHardMax), p.overlap);
    ThreeInk(Pack(context, p, pending), SplitDrafts(atoms[0], context, p),
             AtomDrafts(context, p, atoms[1..], []).value, pending, [atoms[0]], atoms[1..]);
    Reassemble(pending, atoms);
  }

  lemma {:induction false} OneAtomInk(atom: Atom)
    ensures AtomsInk([atom]) == Ink(atom.text)
  {
    assert AtomTexts([atom]) == [atom.text];
    assert Flatten([atom.text]) == atom.text + [] == atom.text;
  }

  lemma {:induction false} AtomDraftsInk(context: seq<Text>, p: Profile, atoms: seq<Atom>, pending: seq<Atom>)
    requires p.Valid()
    requires AtomDrafts(context, p, atoms, pending).Ok?
    ensures DraftsInk(AtomDrafts(context, p, atoms, pending).value) == AtomsInk(pending + atoms)
    decreases |atoms|
  {
    if atoms == [] {
      PackInk(context, p, pending);
      assert pending + [] == pending;
    } else if Fits(context, [], atoms[0].text, p.childHardMax) {
      AtomDraftsInk(context, p, atoms[1..], pending + [atoms[0]]);
      Reassemble(pending, atoms);
    } else {
      AtomDraftsInk(context, p, atoms[1..], []);
      assert [] + atoms[1..] == atoms[1..];
      SplitStepInk(context, p, atoms, pending);
    }
  }

  /** Every node's drafts hold exactly its visible characters, each once and in order. */
  lemma {:induction false} DraftsConserveText(path: seq<Heading>, node: SourceNode, p: Profile)
    requires p.Valid() && DraftsOfNode(path, node, p).Ok?
    ensures DraftsInk(DraftsOfNode(path, node, p).value) == Ink(node.content)
  {
    AtomDraftsInk(Context(CompactHeadingPath(path, p.headingMax).path), p, NodeAtoms(node), []);
    assert [] + NodeAtoms(node) == NodeAtoms(node);
    NodeAtomsInk(node);
  }

  /** The check made when chunks are built never fires. */
  lemma {:induction false} DraftsAreBounded(path: seq<Heading>, node: SourceNode, p: Profile)
    requires p.Valid() && DraftsOfNode(path, node, p).Ok?
    ensures DraftsFit(Context(CompactHeadingPath(path, p.headingMax).path),
                      DraftsOfNode(path, node, p).value, p.childHardMax)
  {
    AtomDraftsFit(Context(CompactHeadingPath(path, p.headingMax).path), p, NodeAtoms(node), []);
  }
}
