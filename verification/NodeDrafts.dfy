/** From one paragraph or list item to its drafts: paragraph atoms, greedy packing of the
    atoms that fit, forced splitting of those that do not. */
module NodeDrafts {
  import opened Characters
  import opened Tokenizer
  import opened EmbeddingText
  import opened ForcedSplit

  datatype Draft = Draft(raw: Text, start: nat, end: nat, reason: Reason,
                         overlap: Text, overlapTokens: nat, fragment: nat)

  datatype SourceNode = Paragraph(content: Text) | ListEntry(content: Text)

  // ---- Atoms ----

  function SpaceRun(s: Text): (n: nat)
    ensures n <= |s| && AllSpace(s[..n])
  {
    if s == [] || !s[0].Space? then 0
    else
      var n := SpaceRun(s[1..]);
      assert s[..n + 1] == [s[0]] + s[1..][..n];
      n + 1
  }

  /** Just past the last newline of s[..n], or 0. */
  function PastLastNewline(s: Text, n: nat): (m: nat)
    requires n <= |s|
    ensures m <= n
  {
    if n == 0 then 0 else if s[n - 1] == NEWLINE then n else PastLastNewline(s, n - 1)
  }

  /** Length of the paragraph break that s begins with, or 0: a newline, white space,
      and the last newline of that white space. */
  function BreakLength(s: Text): (n: nat)
    ensures n <= |s| && AllSpace(s[..n])
  {
    if s == [] || s[0] != NEWLINE then 0
    else
      var run := SpaceRun(s[1..]);
      var m := PastLastNewline(s[1..], run);
      assert s[1..][..m] == s[1..][..run][..m];
      assert s[..m + 1] == [s[0]] + s[1..][..m];
      if m == 0 then 0 else m + 1
  }

  function ToBreak(s: Text): (n: nat)
    ensures n <= |s|
    ensures n == 0 && s != [] ==> BreakLength(s) > 0
  {
    if s == [] || BreakLength(s) > 0 then 0 else 1 + ToBreak(s[1..])
  }

  /** Just past the first paragraph break of s, or the end of s. */
  function PastBreak(s: Text): (m: nat)
    ensures m <= |s| && (s != [] ==> m > 0)
  {
    ToBreak(s) + BreakLength(s[ToBreak(s)..])
  }

  /** The atom for the block before the first break, unless it is blank. */
  function FirstBlock(s: Text, cursor: nat): seq<Atom> {
    var block := s[..ToBreak(s)];
    if AllSpace(block) then []
    else [Atom(Strip(block), cursor, cursor + |block|, ParagraphBreak)]
  }

  function BlockAtoms(s: Text, cursor: nat): seq<Atom>
    decreases |s|
  {
    if s == [] then []
    else FirstBlock(s, cursor) + BlockAtoms(s[PastBreak(s)..], cursor + PastBreak(s))
  }

  function WholeAtom(content: Text, reason: Reason): Atom {
    Atom(Strip(content), 0, |Strip(content)|, reason)
  }

  function NodeAtoms(node: SourceNode): seq<Atom> {
    match node
    case ListEntry(content) => [WholeAtom(content, ListItem)]
    case Paragraph(content) =>
      var atoms := BlockAtoms(content, 0);
      if atoms != [] then atoms else [WholeAtom(content, ParagraphBreak)]
  }

  /** The visible characters of the atoms, in order. */
  function AtomsInk(atoms: seq<Atom>): Text {
    Ink(Flatten(AtomTexts(atoms)))
  }

  lemma {:induction false} FirstBlockInk(s: Text, cursor: nat)
    ensures AtomsInk(FirstBlock(s, cursor)) == Ink(s[..PastBreak(s)])
  {
    var n := ToBreak(s);
    var block, gap := s[..n], s[n..][..BreakLength(s[n..])];
    assert s[..PastBreak(s)] == block + gap;
    InkAppend(block, gap);
    InkOfSpace(gap);
    if AllSpace(block) {
      InkOfSpace(block);
    } else {
      StripInk(block);
      assert AtomTexts(FirstBlock(s, cursor)) == [Strip(block)];
      assert Flatten([Strip(block)]) == Strip(block) + [] == Strip(block);
    }
  }

  lemma {:induction false} InkJoins(a: seq<Atom>, b: seq<Atom>, s: Text, m: nat)
    requires m <= |s|
    requires AtomsInk(a) == Ink(s[..m])
    requires AtomsInk(b) == Ink(s[m..])
    ensures AtomsInk(a + b) == Ink(s)
  {
    AtomTextsAppend(a, b);
    InkAppend(Flatten(AtomTexts(a)), Flatten(AtomTexts(b)));
    assert s == s[..m] + s[m..];
    InkAppend(s[..m], s[m..]);
  }

  lemma {:induction false} BlockStepInk(s: Text, cursor: nat)
    requires s != []
    requires AtomsInk(BlockAtoms(s[PastBreak(s)..], cursor + PastBreak(s))) == Ink(s[PastBreak(s)..])
    ensures AtomsInk(BlockAtoms(s, cursor)) == Ink(s)
  {
    FirstBlockInk(s, cursor);
    InkJoins(FirstBlock(s, cursor), BlockAtoms(s[PastBreak(s)..], cursor + PastBreak(s)), s, PastBreak(s));
  }

  lemma {:induction false} BlockAtomsInk(s: Text, cursor: nat)
    ensures AtomsInk(BlockAtoms(s, cursor)) == Ink(s)
    decreases |s|
  {
    if s == [] {
      assert AtomTexts([]) == [];
    } else {
      BlockAtomsInk(s[PastBreak(s)..], cursor + PastBreak(s));
      BlockStepInk(s, cursor);
    }
  }

  lemma {:induction false} WholeAtomInk(content: Text, reason: Reason)
    ensures AtomsInk([WholeAtom(content, reason)]) == Ink(content)
  {
    var text := Strip(content);
    StripInk(content);
    assert AtomTexts([WholeAtom(content, reason)]) == [text];
    assert Flatten([text]) == text + [] == text;
  }

  lemma {:induction false} NodeAtomsInk(node: SourceNode)
    ensures AtomsInk(NodeAtoms(node)) == Ink(node.content)
  {
    BlockAtomsInk(node.content, 0);
    WholeAtomInk(node.content, ListItem);
    WholeAtomInk(node.content, ParagraphBreak);
  }

  // ---- Packing ----

  function JoinAtoms(atoms: seq<Atom>): Text {
    Join(AtomTexts(atoms), BLANK_LINE)
  }

  function PackedTokens(context: seq<Text>, atoms: seq<Atom>): nat {
    Count(Serialized(context, [], JoinAtoms(atoms)))
  }

  function DraftOf(atoms: seq<Atom>): Draft
    requires atoms != []
  {
    Draft(JoinAtoms(atoms), atoms[0].start, atoms[|atoms| - 1].end, atoms[0].reason, [], 0, 0)
  }

  /** The next atom still joins the current group. */
  predicate Joins(context: seq<Text>, p: Profile, current: seq<Atom>, atom: Atom) {
    var candidate := PackedTokens(context, current + [atom]);
    || current == []
    || candidate <= p.childTarget
    || (PackedTokens(context, current) < p.childMin && candidate <= p.childHardMax)
  }

  predicate NoneVacant(groups: seq<seq<Atom>>) {
    forall i | 0 <= i < |groups| :: groups[i] != []
  }

  function Groups(context: seq<Text>, p: Profile, atoms: seq<Atom>, current: seq<Atom>): (groups: seq<seq<Atom>>)
    ensures NoneVacant(groups)
    decreases |atoms|
  {
    if atoms == [] then (if current == [] then [] else [current])
    else if Joins(context, p, current, atoms[0]) then
      Groups(context, p, atoms[1..], current + [atoms[0]])
    else [current] + Groups(context, p, atoms[1..], [atoms[0]])
  }

  function DraftsOf(groups: seq<seq<Atom>>): seq<Draft>
    requires NoneVacant(groups)
  {
    seq(|groups|, i requires 0 <= i < |groups| => DraftOf(groups[i]))
  }

  function Pack(context: seq<Text>, p: Profile, atoms: seq<Atom>): seq<Draft> {
    DraftsOf(Groups(context, p, atoms, []))
  }

  method PackAtoms(context: seq<Text>, p: Profile, atoms: seq<Atom>) returns (output: seq<Draft>)
    ensures output == Pack(context, p, atoms)
  {
    output := [];
    var current: seq<Atom> := [];
    ghost var groups: seq<seq<Atom>> := [];
    assert atoms[0..] == atoms;
    for k := 0 to |atoms|
      invariant NoneVacant(groups)
      invariant output == DraftsOf(groups)
      invariant Groups(context, p, atoms, []) == groups + Groups(context, p, atoms[k..], current)
    {
      var atom := atoms[k];
      assert atoms[k..][1..] == atoms[k + 1..];
      var candidateTokens := PackedTokens(context, current + [atom]);
      var currentTokens := if current == [] then 0 else PackedTokens(context, current);
      if || current == []
         || candidateTokens <= p.childTarget
         || (currentTokens < p.childMin && candidateTokens <= p.childHardMax)
      {
        current := current + [atom];
      } else {
        output := output + [DraftOf(current)];
        groups := groups + [current];
        current := [atom];
      }
    }
    if current != [] {
      output := output + [DraftOf(current)];
      groups := groups + [current];
    }
    assert Groups(context, p, atoms, []) == groups;
  }

  predicate GroupsFit(context: seq<Text>, p: Profile, groups: seq<seq<Atom>>) {
    forall i | 0 <= i < |groups| :: PackedTokens(context, groups[i]) <= p.childHardMax
  }

  /** A group ended only because the next atom would not join it. */
  predicate GroupsFull(context: seq<Text>, p: Profile, groups: seq<seq<Atom>>)
    requires NoneVacant(groups)
  {
    forall i | 0 < i < |groups| :: !Joins(context, p, groups[i - 1], groups[i][0])
  }

  lemma {:induction false} GroupsFlatten(context: seq<Text>, p: Profile, atoms: seq<Atom>, current: seq<Atom>)
    ensures Flatten(Groups(context, p, atoms, current)) == current + atoms
    decreases |atoms|
  {
    if atoms == [] {
      assert current + [] == current;
    } else if Joins(context, p, current, atoms[0]) {
      GroupsFlatten(context, p, atoms[1..], current + [atoms[0]]);
      assert current + [atoms[0]] + atoms[1..] == current + atoms;
    } else {
      GroupsFlatten(context, p, atoms[1..], [atoms[0]]);
      assert [atoms[0]] + atoms[1..] == atoms;
    }
  }

  predicate AtomsFit(context: seq<Text>, p: Profile, atoms: seq<Atom>) {
    forall i | 0 <= i < |atoms| :: PackedTokens(context, [atoms[i]]) <= p.childHardMax
  }

  lemma {:induction false} GroupsFitAll(context: seq<Text>, p: Profile, atoms: seq<Atom>, current: seq<Atom>)
    requires p.Valid() && AtomsFit(context, p, atoms)
    requires current == [] || PackedTokens(context, current) <= p.childHardMax
    ensures GroupsFit(context, p, Groups(context, p, atoms, current))
    decreases |atoms|
  {
    if atoms != [] {
      assert PackedTokens(context, [atoms[0]]) <= p.childHardMax;
      assert AtomsFit(context, p, atoms[1..]);
      if Joins(context, p, current, atoms[0]) {
        assert current == [] ==> current + [atoms[0]] == [atoms[0]];
        GroupsFitAll(context, p, atoms[1..], current + [atoms[0]]);
      } else {
        GroupsFitAll(context, p, atoms[1..], [atoms[0]]);
      }
    }
  }

  lemma {:induction false} GroupsStart(context: seq<Text>, p: Profile, atoms: seq<Atom>, current: seq<Atom>)
    requires current != []
    ensures var groups := Groups(context, p, atoms, current); groups != [] && current <= groups[0]
    decreases |atoms|
  {
    if atoms != [] && Joins(context, p, current, atoms[0]) {
      GroupsStart(context, p, atoms[1..], current + [atoms[0]]);
    }
  }

  lemma {:induction false} GroupsFullAll(context: seq<Text>, p: Profile, atoms: seq<Atom>, current: seq<Atom>)
    ensures GroupsFull(context, p, Groups(context, p, atoms, current))
    decreases |atoms|
  {
    if atoms != [] {
      if Joins(context, p, current, atoms[0]) {
        GroupsFullAll(context, p, atoms[1..], current + [atoms[0]]);
      } else {
        var rest := Groups(context, p, atoms[1..], [atoms[0]]);
        GroupsFullAll(context, p, atoms[1..], [atoms[0]]);
        GroupsStart(context, p, atoms[1..], [atoms[0]]);
        var groups := [current] + rest;
        forall i | 0 < i < |groups|
          ensures !Joins(context, p, groups[i - 1], groups[i][0])
        {
          assert i > 1 ==> groups[i - 1] == rest[i - 2] && groups[i] == rest[i - 1];
        }
      }
    }
  }

  /** Packing keeps the atoms in order, fits every group, and ends a group only when the
      next atom would not join it. */
  lemma {:induction false} PackingLaws(context: seq<Text>, p: Profile, atoms: seq<Atom>)
    requires p.Valid() && AtomsFit(context, p, atoms)
    ensures var groups := Groups(context, p, atoms, []);
      && Pack(context, p, atoms) == DraftsOf(groups)
      && Flatten(groups) == atoms
      && GroupsFit(context, p, groups)
      && GroupsFull(context, p, groups)
  {
    GroupsFlatten(context, p, atoms, []);
    assert [] + atoms == atoms;
    GroupsFitAll(context, p, atoms, []);
    GroupsFullAll(context, p, atoms, []);
  }

  function Raws(drafts: seq<Draft>): seq<Text> {
    seq(|drafts|, i requires 0 <= i < |drafts| => drafts[i].raw)
  }

  lemma {:induction false} GroupsInk(groups: seq<seq<Atom>>)
    requires NoneVacant(groups)
    ensures Ink(Flatten(Raws(DraftsOf(groups)))) == Ink(Flatten(AtomTexts(Flatten(groups))))
  {
    if groups != [] {
      var head, rest := groups[0], groups[1..];
      GroupsInk(rest);
      assert Raws(DraftsOf(groups)) == [JoinAtoms(head)] + Raws(DraftsOf(rest));
      InkAppend(JoinAtoms(head), Flatten(Raws(DraftsOf(rest))));
      JoinInk(AtomTexts(head), BLANK_LINE);
      AtomTextsAppend(head, Flatten(rest));
      InkAppend(Flatten(AtomTexts(head)), Flatten(AtomTexts(Flatten(rest))));
    }
  }
}
