/** Exactly which profiles can never run out of room. */
module ContextRoom {
  import opened Characters
  import opened Tokenizer
  import opened EmbeddingText
  import opened ForcedSplit
  import opened AtomSplit
  import opened NodeDrafts
  import opened Drafting

  const REVIEW_STRUCTURE_PROFILE := Profile(384, 512, 96, 960, 1440, 48, 96)

  /** The widest heading context, the overlap, and one token of text fit together. */
  predicate HasRoom(p: Profile) {
    MaxContext(p.headingMax) + p.overlap + 1 <= p.childHardMax
  }

  lemma {:induction false} RoomSuffices(path: seq<Heading>, node: SourceNode, p: Profile)
    requires p.Valid() && HasRoom(p)
    ensures DraftsOfNode(path, node, p).Ok?
  {
    var context := Context(CompactHeadingPath(path, p.headingMax).path);
    ContextBound(path, p.headingMax);
    assert Count([]) == 0;
    AtomDraftsSucceed(context, p, NodeAtoms(node), []);
  }

  // ---- A node that fails whenever there is no room ----

  /** n characters that are a token each. */
  function Ideographs(n: nat): Text {
    if n == 0 then [] else [Single(0x4E00)] + Ideographs(n - 1)
  }

  lemma {:induction false} IdeographsShape(n: nat)
    ensures |Ideographs(n)| == n && Count(Ideographs(n)) == n
    ensures forall i | 0 <= i < n :: Ideographs(n)[i] == Single(0x4E00)
  {
    if n > 0 {
      IdeographsShape(n - 1);
      assert Ideographs(n)[1..] == Ideographs(n - 1);
    }
  }

  lemma {:induction false} IdeographsWhole(n: nat, boundary: Boundary)
    ensures ToBoundary(Ideographs(n), boundary) == n
    ensures InkRun(Ideographs(n)) == n
  {
    if n > 0 {
      IdeographsWhole(n - 1, boundary);
      assert Ideographs(n)[1..] == Ideographs(n - 1);
    }
  }

  lemma {:induction false} IdeographsUnits(n: nat)
    requires n > 0
    ensures SplitUnits(Ideographs(n)) == [Ideographs(n)] && Strip(Ideographs(n)) == Ideographs(n)
  {
    var s := Ideographs(n);
    IdeographsShape(n);
    IdeographsWhole(n, SentenceEnd);
    IdeographsWhole(n, ClauseEnd);
    assert s[..n] == s && s[n..] == [];
    assert DropLeadingSpace([]) == [];
    assert SplitAfter(s, SentenceEnd) == [s] + SplitAfter([], SentenceEnd);
    assert SplitAfter(s, ClauseEnd) == [s] + SplitAfter([], ClauseEnd);
    assert s[..|s| - 0] == s;
    assert SplitWords(s) == [s] + SplitWords([]);
  }

  function WorstPath(headingMax: int): seq<Heading>
    requires headingMax > 0
  {
    if headingMax == 1 then [Heading("outer", 1, Ideographs(1)), Heading("inner", 2, Ideographs(1))]
    else [Heading("outer", 1, Ideographs(headingMax))]
  }

  lemma {:induction false} WorstContext(headingMax: int)
    requires headingMax > 0
    ensures SumCounts(Context(CompactHeadingPath(WorstPath(headingMax), headingMax).path)) == MaxContext(headingMax)
  {
    var path := WorstPath(headingMax);
    var compact := CompactHeadingPath(path, headingMax).path;
    ContextCount(path);
    JoinCount(Texts(path), [NEWLINE]);
    IdeographsShape(headingMax);
    IdeographsShape(1);
    if headingMax == 1 {
      assert Texts(path) == [Ideographs(1), Ideographs(1)];
      assert SumCounts([Ideographs(1), Ideographs(1)][1..]) == Count(Ideographs(1)) + SumCounts([]);
      assert compact == path;
    } else {
      assert Texts(path) == [Ideographs(headingMax)];
      assert SumCounts([Ideographs(headingMax)][1..]) == 0;
      assert compact == path;
    }
  }

  /** A fragment behind a full one that fills the room by itself cannot be placed when the
      overlap reaches that far. */
  lemma {:induction false} SecondFragmentFails(fragments: seq<Atom>, room: nat, overlap: nat)
    requires |fragments| >= 2 && room <= overlap
    requires Count(fragments[0].text) == room && Count(fragments[1].text) > 0
    ensures SecondPass(fragments, room, overlap, []).Overflow?
  {
    assert Count([]) == 0;
    assert Rebound(fragments[0], room, overlap, []) == Ok([fragments[0]]);
    ForcedSucceeds(fragments[1].text, 0, fragments[1].start);
    assert fragments[1..][0] == fragments[1];
    assert Rebound(fragments[1], room, overlap, fragments[0].text).Overflow?;
    assert SecondPass(fragments[1..], room, overlap, fragments[0].text).Overflow?;
  }

  lemma {:induction false} FirstPassOfOne(unit: Text, room: int, at: nat)
    requires Count(unit) > room
    ensures FirstPass([unit], room, [], at) == ForcedAtoms(unit, room, at)
  {
    var forced := ForcedAtoms(unit, room, at);
    assert [unit][1..] == [];
    if forced.Ok? {
      assert FirstPass([], room, [], at + |unit|) == Ok([]);
      assert [] + forced.value + [] == forced.value;
    }
  }

  lemma {:induction false} TwoFullPieces(value: Text, room: nat, at: nat)
    requires room > 0 && Count(value) == 2 * room
    requires ForcedAtoms(value, room, at).Ok?
    ensures var pieces := ForcedAtoms(value, room, at).value;
      |pieces| >= 2 && Count(pieces[0].text) == room && Count(pieces[1].text) > 0
  {
    ForcedPieces(value, room, at);
    LastPieceCounts(value, room, at);
    var pieces := ForcedAtoms(value, room, at).value;
    var texts := AtomTexts(pieces);
    assert SumCounts(texts) == Count(texts[0]) + SumCounts(texts[1..]);
    assert texts[0] == pieces[0].text && texts[1] == pieces[1].text;
  }

  lemma {:induction false} SplitFails(n: nat, room: int, overlap: nat, at: nat)
    requires room <= overlap
    requires n == if room > 0 then 2 * room else 1
    ensures SplitAtom(Atom(Ideographs(n), at, at + n, ListItem), room, overlap).Overflow?
  {
    var s := Ideographs(n);
    IdeographsShape(n);
    IdeographsUnits(n);
    FirstPassOfOne(s, room, at);
    ForcedSucceeds(s, room, at);
    if room > 0 {
      TwoFullPieces(s, room, at);
      SecondFragmentFails(ForcedAtoms(s, room, at).value, room, overlap);
    }
  }

  /** With less room there is a list item, under one or two headings, that cannot be split. */
  lemma {:induction false} RoomIsNeeded(p: Profile) returns (path: seq<Heading>, node: SourceNode)
    requires p.Valid() && !HasRoom(p)
    ensures DraftsOfNode(path, node, p).Overflow?
  {
    var room := p.childHardMax - MaxContext(p.headingMax);
    var n := if room > 0 then 2 * room else 1;
    path, node := WorstPath(p.headingMax), ListEntry(Ideographs(n));
    var context := Context(CompactHeadingPath(path, p.headingMax).path);
    WorstContext(p.headingMax);
    assert Count([]) == 0;
    assert Room(context, [], p.childHardMax) == room;
    IdeographsShape(n);
    IdeographsUnits(n);
    var atom := Atom(Ideographs(n), 0, n, ListItem);
    assert NodeAtoms(node) == [atom];
    FitsRoom(context, [], atom.text, p.childHardMax);
    SplitFails(n, room, p.overlap, 0);
    assert AtomDrafts(context, p, [atom], []).Overflow?;
  }

  /** Drafting succeeds for every node under every outline if and only if the profile
      leaves room for the widest context, the overlap and one token. */
  lemma {:induction false} DraftingNeverFailsIff(p: Profile)
    requires p.Valid()
    ensures (forall path, node :: DraftsOfNode(path, node, p).Ok?) <==> HasRoom(p)
  {
    if HasRoom(p) {
      forall path, node
        ensures DraftsOfNode(path, node, p).Ok?
      {
        RoomSuffices(path, node, p);
      }
    } else {
      var path, node := RoomIsNeeded(p);
    }
  }

  /** Twice the heading limit plus twice the overlap is not enough room: without overlap
      it can leave none for text. */
  lemma {:induction false} TwiceIsNotEnough() returns (p: Profile, path: seq<Heading>, node: SourceNode)
    ensures p.Valid() && p.headingMax >= 2 && 2 * p.headingMax + 2 * p.overlap <= p.childHardMax
    ensures DraftsOfNode(path, node, p).Overflow?
  {
    p := Profile(4, 4, 1, 8, 8, 0, 2);
    path, node := RoomIsNeeded(p);
  }

  lemma {:induction false} ReviewProfileHasRoom(path: seq<Heading>, node: SourceNode)
    ensures REVIEW_STRUCTURE_PROFILE.Valid()
    ensures DraftsOfNode(path, node, REVIEW_STRUCTURE_PROFILE).Ok?
  {
    RoomSuffices(path, node, REVIEW_STRUCTURE_PROFILE);
  }
}
