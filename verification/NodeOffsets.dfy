/** When the offsets of a node's drafts point, in the node's content, at their own text. */
module NodeOffsets {
  import opened Characters
  import opened EmbeddingText
  import opened ForcedSplit
  import opened AtomSplit
  import opened OffsetDrift
  import opened NodeDrafts
  import opened Drafting

  // ---- Where atoms are taken from ----

  /** The atom's text is a stretch of the content, stripped. */
  predicate TakenTo(content: Text, atom: Atom, end: nat) {
    atom.start <= end <= |content| && atom.text == Strip(content[atom.start..end])
  }

  ghost predicate Taken(content: Text, atom: Atom) {
    exists end: nat :: TakenTo(content, atom, end)
  }

  ghost predicate AllTaken(content: Text, atoms: seq<Atom>) {
    forall i | 0 <= i < |atoms| :: Taken(content, atoms[i])
  }

  lemma {:induction false} StripStarts(s: Text)
    ensures Strip(s) != [] ==> !Strip(s)[0].Space? && s != []
    ensures Strip(s) != [] && !s[0].Space? ==> Strip(s) <= s
    ensures Strip(s) == [] <==> AllSpace(s)
  {
    DropLeadingSpaceStarts(s);
    var rest := DropLeadingSpace(s);
    DropTrailingSpaceInk(rest);
    StripInk(s);
    if Strip(s) == [] {
      assert rest[|Strip(s)|..] == rest;
      assert rest == [];
      assert s[..|s|] == s;
    }
  }

  lemma {:induction false} FirstBlockTaken(content: Text, cursor: nat)
    requires cursor <= |content|
    ensures AllTaken(content, FirstBlock(content[cursor..], cursor))
  {
    var s := content[cursor..];
    var n := ToBreak(s);
    assert s[..n] == content[cursor..cursor + n];
    assert AllSpace(s[..n]) || TakenTo(content, FirstBlock(s, cursor)[0], cursor + n);
  }

  lemma {:induction false} TakenAppend(content: Text, a: seq<Atom>, b: seq<Atom>)
    requires AllTaken(content, a) && AllTaken(content, b)
    ensures AllTaken(content, a + b)
  {
  }

  /** The atoms of the content from the cursor on. */
  function AtomsFrom(content: Text, cursor: nat): seq<Atom>
    requires cursor <= |content|
  {
    BlockAtoms(content[cursor..], cursor)
  }

  lemma {:induction false} AtomsUnfold(content: Text, cursor: nat) returns (first: seq<Atom>, next: nat)
    requires cursor < |content|
    ensures first == FirstBlock(content[cursor..], cursor)
    ensures cursor < next <= |content| && next == cursor + PastBreak(content[cursor..])
    ensures AtomsFrom(content, cursor) == first + AtomsFrom(content, next)
  {
    var s := content[cursor..];
    first, next := FirstBlock(s, cursor), cursor + PastBreak(s);
    assert s[PastBreak(s)..] == content[next..];
  }

  lemma {:induction false} BlocksTaken(content: Text, cursor: nat)
    requires cursor <= |content|
    ensures AllTaken(content, AtomsFrom(content, cursor))
    decreases |content| - cursor
  {
    if cursor < |content| {
      var first, next := AtomsUnfold(content, cursor);
      FirstBlockTaken(content, cursor);
      BlocksTaken(content, next);
      TakenAppend(content, first, AtomsFrom(content, next));
    }
  }

  lemma {:induction false} NodeAtomsTaken(node: SourceNode)
    ensures AllTaken(node.content, NodeAtoms(node))
  {
    var content := node.content;
    BlocksTaken(content, 0);
    assert content[0..] == content && content[0..|content|] == content;
    assert TakenTo(content, WholeAtom(content, ListItem), |content|);
    assert TakenTo(content, WholeAtom(content, ParagraphBreak), |content|);
  }

  // ---- Fragments ----

  /** The atom begins with its block, and splitting drops nothing that matters. */
  predicate Exact(content: Text, atom: Atom) {
    atom.text == [] || (atom.start < |content| && !content[atom.start].Space? && !Drifts(atom.text))
  }

  lemma {:induction false} LiesInPrefix(content: Text, at: nat, text: Text, part: Text)
    requires LiesAt(content, at, text) && |part| <= |text|
    ensures LiesAt(content, at, part) <==> part <= text
  {
    assert content[at..at + |part|] == text[..|part|];
  }

  lemma {:induction false} SpaceIsNotInk(content: Text, at: nat, part: Text)
    requires at < |content| && content[at].Space? && part != [] && !part[0].Space?
    ensures !LiesAt(content, at, part)
  {
  }

  /** Split off any room, the fragments of an atom point at their own text exactly when its
      block does not begin with white space and no white space that splitting drops is
      followed by something visible. */
  lemma {:induction false} AtomExactIff(content: Text, atom: Atom, room: int, overlap: nat)
    requires Taken(content, atom) && SplitAtom(atom, room, overlap).Ok?
    ensures AllPoint(content, 0, SplitAtom(atom, room, overlap).value) <==> Exact(content, atom)
  {
    var end: nat :| TakenTo(content, atom, end);
    var block, units := content[atom.start..end], Flatten(SplitUnits(atom.text));
    StripStarts(block);
    FragmentsPoint(content, atom, room, overlap);
    UnitsAreShort(atom.text);
    UnitsExactIff(atom.text);
    if atom.text != [] {
      UnitsBegin(atom.text);
      assert block[0] == content[atom.start];
      if block[0].Space? {
        SpaceIsNotInk(content, atom.start, units);
      } else {
        assert LiesAt(content, atom.start, atom.text);
        LiesInPrefix(content, atom.start, atom.text, units);
      }
    }
  }

  lemma {:induction false} UnitsBegin(text: Text)
    requires text != [] && !text[0].Space?
    ensures Flatten(SplitUnits(text)) != [] && Flatten(SplitUnits(text))[0] == text[0]
  {
    PartsBegin(text, SentenceEnd);
    PartsBegin(text, ClauseEnd);
    WordsAreAll(text);
    assert DropLeadingSpace(text) == text;
    assert Flatten([text]) == text + [] == text;
  }

  // ---- Drafts ----

  predicate DraftPoints(content: Text, d: Draft) {
    d.start <= d.end <= |content| && content[d.start..d.end] == d.raw
  }

  predicate ForcedPoint(content: Text, drafts: seq<Draft>) {
    forall i | 0 <= i < |drafts| && drafts[i].fragment > 0 :: DraftPoints(content, drafts[i])
  }

  lemma {:induction false} ForcedPointAppend(content: Text, a: seq<Draft>, b: seq<Draft>)
    ensures ForcedPoint(content, a + b) <==> ForcedPoint(content, a) && ForcedPoint(content, b)
  {
    assert forall i | 0 <= i < |a| :: (a + b)[i] == a[i];
    assert forall i | 0 <= i < |b| :: (a + b)[|a| + i] == b[i];
    assert forall i | |a| <= i < |a + b| :: (a + b)[i] == b[i - |a|];
  }

  lemma {:induction false} ForcedDraftsPoint(content: Text, parts: seq<Atom>, overlap: nat, previous: Text, order: nat)
    ensures ForcedPoint(content, ForcedDrafts(parts, overlap, previous, order)) <==> AllPoint(content, 0, parts)
  {
    if parts != [] {
      var first := ForcedDraft(parts[0], overlap, previous, order);
      var rest := ForcedDrafts(parts[1..], overlap, parts[0].text, order + 1);
      ForcedDraftsPoint(content, parts[1..], overlap, parts[0].text, order + 1);
      ForcedPointAppend(content, [first], rest);
      PointsFirst(content, 0, parts[0], parts[1..]);
      assert parts == [parts[0]] + parts[1..];
      assert ForcedPoint(content, [first]) <==> DraftPoints(content, [first][0]);
    }
  }

  lemma {:induction false} PackedAreWhole(context: seq<Text>, p: Profile, atoms: seq<Atom>, content: Text)
    ensures ForcedPoint(content, Pack(context, p, atoms))
  {
  }

  /** Every atom that has to be split is exact. */
  predicate OversizedExact(context: seq<Text>, p: Profile, content: Text, atoms: seq<Atom>) {
    forall i | 0 <= i < |atoms| && !Fits(context, [], atoms[i].text, p.childHardMax) :: Exact(content, atoms[i])
  }

  lemma {:induction false} OversizedFirst(context: seq<Text>, p: Profile, content: Text, atoms: seq<Atom>)
    requires atoms != []
    ensures OversizedExact(context, p, content, atoms)
       <==> && (Fits(context, [], atoms[0].text, p.childHardMax) || Exact(content, atoms[0]))
            && OversizedExact(context, p, content, atoms[1..])
  {
    assert forall i | 0 < i < |atoms| :: atoms[i] == atoms[1..][i - 1];
    assert forall i | 0 <= i < |atoms| - 1 :: atoms[1..][i] == atoms[i + 1];
  }

  lemma {:induction false} AtomDraftsPoint(context: seq<Text>, p: Profile, content: Text, atoms: seq<Atom>, pending: seq<Atom>)
    requires p.Valid() && AllTaken(content, atoms) && AtomDrafts(context, p, atoms, pending).Ok?
    ensures ForcedPoint(content, AtomDrafts(context, p, atoms, pending).value)
       <==> OversizedExact(context, p, content, atoms)
    decreases |atoms|
  {
    PackedAreWhole(context, p, pending, content);
    if atoms != [] {
      OversizedFirst(context, p, content, atoms);
      assert forall i | 0 <= i < |atoms| - 1 :: atoms[1..][i] == atoms[i + 1];
      if Fits(context, [], atoms[0].text, p.childHardMax) {
        AtomDraftsPoint(context, p, content, atoms[1..], pending + [atoms[0]]);
      } else {
        AtomDraftsUnfold(context, p, atoms, pending);
        var room := Room(context, [], p.childHardMax);
        var packed, forced := Pack(context, p, pending), SplitDrafts(atoms[0], context, p);
        var rest := AtomDrafts(context, p, atoms[1..], []).value;
        AtomDraftsPoint(context, p, content, atoms[1..], []);
        AtomExactIff(content, atoms[0], room, p.overlap);
        ForcedDraftsPoint(content, SplitAtom(atoms[0], room, p.overlap).value, p.overlap, [], 0);
        ForcedPointAppend(content, packed, forced);
        ForcedPointAppend(content, packed + forced, rest);
      }
    }
  }

  /** The forced drafts of a node point, in its content, at their own text exactly when each
      of its blocks that has to be split does not begin with white space, and splitting it
      drops no white space that is followed by something visible. */
  lemma {:induction false} OffsetsExactIff(path: seq<Heading>, node: SourceNode, p: Profile)
    requires p.Valid() && DraftsOfNode(path, node, p).Ok?
    ensures ForcedPoint(node.content, DraftsOfNode(path, node, p).value)
       <==> OversizedExact(Context(CompactHeadingPath(path, p.headingMax).path), p, node.content, NodeAtoms(node))
  {
    NodeAtomsTaken(node);
    AtomDraftsPoint(Context(CompactHeadingPath(path, p.headingMax).path), p, node.content, NodeAtoms(node), []);
  }

  // ---- Packed drafts ----

  /** A block of the content, with something visible in it. */
  predicate Block(content: Text, atom: Atom) {
    TakenTo(content, atom, atom.end) && atom.text != []
  }

  /** Between two blocks there are two characters at least, and just two are a blank line. */
  predicate Apart(content: Text, a: Atom, b: Atom) {
    && a.end + 2 <= b.start <= |content|
    && (b.start == a.end + 2 ==> content[a.end..b.start] == BLANK_LINE)
  }

  predicate Blocks(content: Text, atoms: seq<Atom>) {
    && (forall i | 0 <= i < |atoms| :: Block(content, atoms[i]))
    && (forall i | 0 < i < |atoms| :: Apart(content, atoms[i - 1], atoms[i]))
  }

  lemma {:induction false} StripLength(s: Text)
    ensures |Strip(s)| <= |s| && (|Strip(s)| == |s| ==> Strip(s) == s)
  {
    DropLeadingSpaceStarts(s);
    DropTrailingSpaceInk(DropLeadingSpace(s));
  }

  lemma {:induction false} BreakOfTwo(s: Text)
    ensures BreakLength(s) > 0 ==> BreakLength(s) >= 2
    ensures BreakLength(s) == 2 ==> s[..2] == BLANK_LINE
  {
    if BreakLength(s) == 2 {
      LastNewline(s[1..], SpaceRun(s[1..]));
      assert s[1..][0] == s[1];
    }
  }

  lemma {:induction false} LastNewline(s: Text, n: nat)
    requires n <= |s|
    ensures var m := PastLastNewline(s, n); m > 0 ==> s[m - 1] == NEWLINE
  {
    if n > 0 && s[n - 1] != NEWLINE {
      LastNewline(s, n - 1);
    }
  }

  lemma {:induction false} FirstBlockIs(content: Text, cursor: nat, end: nat)
    requires cursor <= end <= |content| && end == cursor + ToBreak(content[cursor..])
    ensures var first := FirstBlock(content[cursor..], cursor);
      first == [] || (|first| == 1 && first[0].start == cursor && first[0].end == end && Block(content, first[0]))
  {
    var block := content[cursor..end];
    assert content[cursor..][..end - cursor] == block;
    StripStarts(block);
  }

  lemma {:induction false} GapBehind(content: Text, end: nat, next: nat)
    requires end <= next <= |content| && next == end + BreakLength(content[end..])
    requires end == |content| || end < next
    ensures next < |content| ==> end + 2 <= next && (next == end + 2 ==> content[end..next] == BLANK_LINE)
  {
    BreakOfTwo(content[end..]);
    if next == end + 2 {
      assert content[end..][..2] == content[end..next];
    }
  }

  /** The block before the first break, and where the next one can begin. */
  lemma {:induction false} FirstBlockLies(content: Text, cursor: nat) returns (end: nat, next: nat)
    requires cursor < |content|
    ensures cursor <= end <= next <= |content| && next == cursor + PastBreak(content[cursor..])
    ensures var first := FirstBlock(content[cursor..], cursor);
      first == [] || (|first| == 1 && first[0].start == cursor && first[0].end == end && Block(content, first[0]))
    ensures next < |content| ==> end + 2 <= next && (next == end + 2 ==> content[end..next] == BLANK_LINE)
  {
    var s := content[cursor..];
    end := cursor + ToBreak(s);
    assert s[ToBreak(s)..] == content[end..];
    next := end + BreakLength(content[end..]);
    FirstBlockIs(content, cursor, end);
    NoBreakIsEnd(s);
    GapBehind(content, end, next);
  }

  lemma {:induction false} NoBreakIsEnd(s: Text)
    ensures ToBreak(s) == |s| || BreakLength(s[ToBreak(s)..]) > 0
  {
    if s != [] && BreakLength(s) == 0 {
      NoBreakIsEnd(s[1..]);
      assert s[1..][ToBreak(s[1..])..] == s[ToBreak(s)..];
    }
  }

  lemma {:induction false} BlocksPrepend(content: Text, first: Atom, rest: seq<Atom>)
    requires Block(content, first) && Blocks(content, rest) && (rest != [] ==> Apart(content, first, rest[0]))
    ensures Blocks(content, [first] + rest)
  {
    var atoms := [first] + rest;
    forall i | 0 < i < |atoms|
      ensures Apart(content, atoms[i - 1], atoms[i])
    {
      assert i > 1 ==> atoms[i - 1] == rest[i - 2] && atoms[i] == rest[i - 1];
    }
  }

  lemma {:induction false} AtomsFromAreBlocks(content: Text, cursor: nat)
    requires cursor <= |content|
    ensures Blocks(content, AtomsFrom(content, cursor))
    ensures var atoms := AtomsFrom(content, cursor); atoms != [] ==> cursor <= atoms[0].start
    decreases |content| - cursor
  {
    if cursor < |content| {
      var first, next := AtomsUnfold(content, cursor);
      var end, behind := FirstBlockLies(content, cursor);
      AtomsFromAreBlocks(content, next);
      var rest := AtomsFrom(content, next);
      if first != [] {
        assert first == [first[0]];
        BlocksPrepend(content, first[0], rest);
      } else {
        assert first + rest == rest;
      }
    }
  }

  /** Nothing was stripped off the block, and it begins with something visible. */
  predicate Snug(content: Text, atom: Atom) {
    && |atom.text| == atom.end - atom.start
    && (atom.text == [] || (atom.start < |content| && !content[atom.start].Space?))
  }

  /** All blocks are snug, with nothing but a blank line between any two. */
  predicate Tight(content: Text, group: seq<Atom>) {
    && (forall i | 0 <= i < |group| :: Snug(content, group[i]))
    && (forall i | 0 < i < |group| :: group[i].start == group[i - 1].end + 2)
  }

  lemma {:induction false} SnugBlock(content: Text, atom: Atom)
    requires Block(content, atom)
    ensures |atom.text| <= atom.end - atom.start
    ensures Snug(content, atom) <==> |atom.text| == atom.end - atom.start
    ensures Snug(content, atom) ==> LiesAt(content, atom.start, atom.text)
  {
    var block := content[atom.start..atom.end];
    StripLength(block);
    StripStarts(block);
    assert block != [] && block[0] == content[atom.start];
  }

  lemma {:induction false} TightFirst(content: Text, group: seq<Atom>)
    requires |group| > 1
    ensures Tight(content, group)
       <==> Snug(content, group[0]) && group[1].start == group[0].end + 2 && Tight(content, group[1..])
  {
    var rest := group[1..];
    assert forall i | 0 < i < |group| :: group[i] == rest[i - 1];
    assert forall i | 0 <= i < |rest| :: rest[i] == group[i + 1];
    if Tight(content, rest) && group[1].start == group[0].end + 2 {
      forall i | 0 < i < |group|
        ensures group[i].start == group[i - 1].end + 2
      {
        assert i > 1 ==> rest[i - 1].start == rest[i - 2].end + 2;
      }
    }
  }

  lemma {:induction false} BlocksRest(content: Text, group: seq<Atom>)
    requires |group| > 1 && Blocks(content, group)
    ensures Block(content, group[0]) && Apart(content, group[0], group[1]) && Blocks(content, group[1..])
  {
    var rest := group[1..];
    assert forall i | 0 <= i < |rest| :: rest[i] == group[i + 1];
    assert Apart(content, group[1 - 1], group[1]);
    forall i | 0 < i < |rest|
      ensures Apart(content, rest[i - 1], rest[i])
    {
      assert Apart(content, group[i + 1 - 1], group[i + 1]);
    }
  }

  lemma {:induction false} JoinFirst(group: seq<Atom>)
    requires |group| > 1
    ensures JoinAtoms(group) == group[0].text + BLANK_LINE + JoinAtoms(group[1..])
  {
    assert AtomTexts(group)[1..] == AtomTexts(group[1..]);
  }

  /** What the joined text of a group is to the stretch the group spans. */
  predicate Spanned(content: Text, group: seq<Atom>)
    requires group != []
  {
    var from, to := group[0].start, group[|group| - 1].end;
    && from + |JoinAtoms(group)| <= to <= |content|
    && (from + |JoinAtoms(group)| == to <==> Tight(content, group))
    && (Tight(content, group) ==> LiesAt(content, from, JoinAtoms(group)))
  }

  lemma {:induction false} JoinedLies(content: Text, a: Atom, b: nat, rest: Text)
    requires LiesAt(content, a.start, a.text) && a.start + |a.text| == a.end
    requires b == a.end + 2 <= |content| && content[a.end..b] == BLANK_LINE && LiesAt(content, b, rest)
    ensures LiesAt(content, a.start, a.text + BLANK_LINE + rest)
  {
    LiesInTwo(content, a.start, a.text, BLANK_LINE);
    LiesInTwo(content, a.start, a.text + BLANK_LINE, rest);
  }

  lemma {:induction false} JoinedStep(content: Text, group: seq<Atom>, rest: seq<Atom>)
    requires |group| > 1 && rest == group[1..] && Spanned(content, rest)
    requires Block(content, group[0]) && Apart(content, group[0], rest[0])
    ensures Spanned(content, group)
  {
    SnugBlock(content, group[0]);
    TightFirst(content, group);
    JoinFirst(group);
    if Tight(content, group) {
      JoinedLies(content, group[0], rest[0].start, JoinAtoms(rest));
    }
  }

  /** The joined text is no longer than the stretch it was taken from, and as long only
      where nothing was left out; then it is that stretch. */
  lemma {:induction false} JoinedLength(content: Text, group: seq<Atom>)
    requires group != [] && Blocks(content, group)
    ensures Spanned(content, group)
    decreases |group|
  {
    if |group| == 1 {
      SnugBlock(content, group[0]);
      assert AtomTexts(group) == [group[0].text];
    } else {
      BlocksRest(content, group);
      JoinedLength(content, group[1..]);
      JoinedStep(content, group, group[1..]);
    }
  }

  lemma {:induction false} BlocksWithin(content: Text, atoms: seq<Atom>, lo: nat, hi: nat)
    requires Blocks(content, atoms) && lo <= hi <= |atoms|
    ensures Blocks(content, atoms[lo..hi])
  {
    var group := atoms[lo..hi];
    forall i | 0 < i < |group|
      ensures Apart(content, group[i - 1], group[i])
    {
      assert Apart(content, atoms[lo + i - 1], atoms[lo + i]);
    }
  }

  lemma {:induction false} WholeAtomPoints(content: Text, reason: Reason)
    ensures var atom := WholeAtom(content, reason);
      DraftPoints(content, DraftOf([atom])) <==> Tight(content, [atom])
  {
    var atom := WholeAtom(content, reason);
    StripLength(content);
    StripStarts(content);
    assert AtomTexts([atom]) == [atom.text];
    if atom.text != [] && content[0].Space? {
      SpaceIsNotInk(content, 0, atom.text);
    }
    assert Tight(content, [atom]) <==> Snug(content, [atom][0]);
  }

  /** A group of a node's atoms, joined, is what the content holds between its offsets
      exactly when it is tight. */
  lemma {:induction false} GroupPointsIff(node: SourceNode, lo: nat, hi: nat)
    requires lo < hi <= |NodeAtoms(node)|
    ensures var group := NodeAtoms(node)[lo..hi];
      DraftPoints(node.content, DraftOf(group)) <==> Tight(node.content, group)
  {
    var content, atoms := node.content, NodeAtoms(node);
    var group := atoms[lo..hi];
    assert content[0..] == content;
    if node.Paragraph? && BlockAtoms(content, 0) != [] {
      AtomsFromAreBlocks(content, 0);
      BlocksWithin(content, atoms, lo, hi);
      JoinedLength(content, group);
    } else {
      assert group == [atoms[0]];
      WholeAtomPoints(content, atoms[0].reason);
    }
  }

  // ---- Packed drafts are groups of neighbours ----

  ghost predicate IsGroup(atoms: seq<Atom>, draft: Draft) {
    exists lo: nat, hi: nat :: GroupAt(atoms, draft, lo, hi)
  }

  predicate GroupAt(atoms: seq<Atom>, draft: Draft, lo: nat, hi: nat) {
    lo < hi <= |atoms| && draft == DraftOf(atoms[lo..hi])
  }

  ghost predicate PackedAreGroups(atoms: seq<Atom>, drafts: seq<Draft>) {
    forall i | 0 <= i < |drafts| && drafts[i].fragment == 0 :: IsGroup(atoms, drafts[i])
  }

  lemma {:induction false} GroupsAreSlices(atoms: seq<Atom>, groups: seq<seq<Atom>>, lo: nat, hi: nat)
    requires lo <= hi <= |atoms| && NoneVacant(groups) && Flatten(groups) == atoms[lo..hi]
    ensures PackedAreGroups(atoms, DraftsOf(groups))
    decreases |groups|
  {
    if groups != [] {
      var first, rest := groups[0], groups[1..];
      var mid := lo + |first|;
      assert Flatten(groups) == first + Flatten(rest);
      assert first == atoms[lo..hi][..|first|] == atoms[lo..mid];
      assert Flatten(rest) == atoms[lo..hi][|first|..] == atoms[mid..hi];
      GroupsAreSlices(atoms, rest, mid, hi);
      assert GroupAt(atoms, DraftsOf(groups)[0], lo, mid);
      assert DraftsOf(groups) == [DraftOf(first)] + DraftsOf(rest);
    }
  }

  lemma {:induction false} PackAreGroups(context: seq<Text>, p: Profile, atoms: seq<Atom>, lo: nat, hi: nat)
    requires lo <= hi <= |atoms|
    ensures PackedAreGroups(atoms, Pack(context, p, atoms[lo..hi]))
  {
    GroupsFlatten(context, p, atoms[lo..hi], []);
    assert [] + atoms[lo..hi] == atoms[lo..hi];
    GroupsAreSlices(atoms, Groups(context, p, atoms[lo..hi], []), lo, hi);
  }

  lemma {:induction false} ForcedAreNoGroups(atoms: seq<Atom>, parts: seq<Atom>, overlap: nat, previous: Text, order: nat)
    ensures PackedAreGroups(atoms, ForcedDrafts(parts, overlap, previous, order))
  {
    if parts != [] {
      ForcedAreNoGroups(atoms, parts[1..], overlap, parts[0].text, order + 1);
    }
  }

  lemma {:induction false} GroupsAppend(atoms: seq<Atom>, a: seq<Draft>, b: seq<Draft>)
    requires PackedAreGroups(atoms, a) && PackedAreGroups(atoms, b)
    ensures PackedAreGroups(atoms, a + b)
  {
  }

  lemma {:induction false} SplitKeepsGroups(context: seq<Text>, p: Profile, all: seq<Atom>, atoms: seq<Atom>, pending: seq<Atom>)
    requires p.Valid() && atoms != [] && !Fits(context, [], atoms[0].text, p.childHardMax)
    requires AtomDrafts(context, p, atoms, pending).Ok? && PackedAreGroups(all, Pack(context, p, pending))
    requires AtomDrafts(context, p, atoms[1..], []).Ok? ==>
      PackedAreGroups(all, AtomDrafts(context, p, atoms[1..], []).value)
    ensures PackedAreGroups(all, AtomDrafts(context, p, atoms, pending).value)
  {
    AtomDraftsUnfold(context, p, atoms, pending);
    var packed, forced, rest := Pack(context, p, pending), SplitDrafts(atoms[0], context, p),
                                AtomDrafts(context, p, atoms[1..], []).value;
    ForcedAreNoGroups(all, SplitAtom(atoms[0], Room(context, [], p.childHardMax), p.overlap).value, p.overlap, [], 0);
    GroupsAppend(all, packed, forced);
    GroupsAppend(all, packed + forced, rest);
  }

  lemma {:induction false} Slices<T>(s: seq<T>, lo: nat, hi: nat)
    requires lo <= hi < |s|
    ensures s[hi..][0] == s[hi] && s[hi..][1..] == s[hi + 1..] && s[lo..hi] + [s[hi]] == s[lo..hi + 1]
    ensures s[hi + 1..hi + 1] == []
  {
  }

  lemma {:induction false} DraftsFromAreGroups(context: seq<Text>, p: Profile, atoms: seq<Atom>, lo: nat, hi: nat)
    requires p.Valid() && lo <= hi <= |atoms| && AtomDrafts(context, p, atoms[hi..], atoms[lo..hi]).Ok?
    ensures PackedAreGroups(atoms, AtomDrafts(context, p, atoms[hi..], atoms[lo..hi]).value)
    decreases |atoms| - hi
  {
    PackAreGroups(context, p, atoms, lo, hi);
    if hi < |atoms| {
      Slices(atoms, lo, hi);
      if Fits(context, [], atoms[hi].text, p.childHardMax) {
        DraftsFromAreGroups(context, p, atoms, lo, hi + 1);
      } else {
        AtomDraftsUnfold(context, p, atoms[hi..], atoms[lo..hi]);
        DraftsFromAreGroups(context, p, atoms, hi + 1, hi + 1);
        SplitKeepsGroups(context, p, atoms, atoms[hi..], atoms[lo..hi]);
      }
    }
  }

  /** A packed draft is the join of neighbouring blocks of the node, and points at its own
      text exactly when nothing was stripped off any of them and only a blank line lies
      between any two. */
  lemma {:induction false} PackedExactIff(path: seq<Heading>, node: SourceNode, p: Profile, i: nat)
    returns (lo: nat, hi: nat)
    requires p.Valid() && DraftsOfNode(path, node, p).Ok? && i < |DraftsOfNode(path, node, p).value|
    requires DraftsOfNode(path, node, p).value[i].fragment == 0
    ensures lo < hi <= |NodeAtoms(node)|
    ensures var d, group := DraftsOfNode(path, node, p).value[i], NodeAtoms(node)[lo..hi];
      d == DraftOf(group) && (DraftPoints(node.content, d) <==> Tight(node.content, group))
  {
    var atoms := NodeAtoms(node);
    assert atoms[0..] == atoms && atoms[0..0] == [];
    DraftsFromAreGroups(Context(CompactHeadingPath(path, p.headingMax).path), p, atoms, 0, 0);
    var d := DraftsOfNode(path, node, p).value[i];
    assert IsGroup(atoms, d);
    lo, hi :| GroupAt(atoms, d, lo, hi);
    GroupPointsIff(node, lo, hi);
  }
}
