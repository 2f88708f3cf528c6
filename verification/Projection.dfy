/** Building the chunks of a document: drafts of every retrieval node, parent windows, and
    the last check on what is serialized. */
module Projection {
  import opened Characters
  import opened Tokenizer
  import opened EmbeddingText
  import opened ForcedSplit
  import opened AtomSplit
  import opened NodeDrafts
  import opened Drafting
  import opened ContextRoom
  import opened Windows

  /** A retrieval node: text under an outline, or a heading with nothing under it. */
  datatype Source = Body(path: seq<Heading>, section: string, sectionNode: string, node: SourceNode)
                  | Alone(path: seq<Heading>, section: string, sectionNode: string, text: Text)

  function ContextOf(s: Source, p: Profile): seq<Text>
    requires p.Valid()
  {
    Context(CompactHeadingPath(s.path, p.headingMax).path)
  }

  /** Headings are taken whole, however long they are. */
  function SourceDrafts(s: Source, p: Profile): Result<seq<Draft>>
    requires p.Valid()
  {
    match s
    case Body(path, _, _, node) => DraftsOfNode(path, node, p)
    case Alone(_, _, _, text) => Ok([Draft(Strip(text), 0, |Strip(text)|, HeadingOnly, [], 0, 0)])
  }

  function Tagged(s: Source, p: Profile, drafts: seq<Draft>): seq<Entry>
    requires p.Valid()
  {
    seq(|drafts|, i requires 0 <= i < |drafts| => Entry(s.section, s.sectionNode, drafts[i], ContextOf(s, p)))
  }

  function AllEntries(sources: seq<Source>, p: Profile): Result<seq<Entry>>
    requires p.Valid()
  {
    if sources == [] then Ok([])
    else
      var k := |sources| - 1;
      var before :- AllEntries(sources[..k], p);
      var drafts :- SourceDrafts(sources[k], p);
      Ok(before + Tagged(sources[k], p, drafts))
  }

  /** The entry as it is serialized stays within the child limit. */
  predicate EntryFits(e: Entry, p: Profile) {
    DraftFits(e.context, e.draft, p.childHardMax)
  }

  predicate AllFit(entries: seq<Entry>, p: Profile) {
    forall i | 0 <= i < |entries| :: EntryFits(entries[i], p)
  }

  datatype Chunk = Chunk(index: nat, entry: Entry, childOrder: nat, window: WindowId)

  /** Chunks in window order, numbered in their document and in their section. */
  function Numbered(placed: seq<Windowed>): seq<Chunk> {
    if placed == [] then []
    else
      var k := |placed| - 1;
      var w := placed[k];
      Numbered(placed[..k])
      + [Chunk(k, w.entry, |Of(Entries(placed[..k]), w.entry.section)| + 1, w.group)]
  }

  function Build(sources: seq<Source>, p: Profile): Result<seq<Chunk>>
    requires p.Valid()
  {
    var entries :- AllEntries(sources, p);
    if !Within(entries, p.parentHardMax) || !AllFit(entries, p) then Overflow
    else Ok(Numbered(Place(Keys(entries), entries, p.parentTarget)))
  }

  // ---- The loops ----

  lemma {:induction false} EntriesStep(sources: seq<Source>, p: Profile, k: nat)
    requires p.Valid() && k < |sources| && AllEntries(sources[..k], p).Ok?
    ensures AllEntries(sources[..k + 1], p) ==
      if SourceDrafts(sources[k], p).Ok? then
        Ok(AllEntries(sources[..k], p).value + Tagged(sources[k], p, SourceDrafts(sources[k], p).value))
      else Overflow
  {
    assert sources[..k + 1][..k] == sources[..k];
  }

  method DraftsFor(s: Source, p: Profile) returns (drafts: Result<seq<Draft>>)
    requires p.Valid()
    ensures drafts == SourceDrafts(s, p)
  {
    match s
    case Body(path, _, _, node) => drafts := NodeDraftList(path, node, p);
    case Alone(_, _, _, text) => drafts := Ok([Draft(Strip(text), 0, |Strip(text)|, HeadingOnly, [], 0, 0)]);
  }

  method CollectEntries(sources: seq<Source>, p: Profile) returns (r: Result<seq<Entry>>)
    requires p.Valid()
    ensures r == AllEntries(sources, p)
  {
    var entries: seq<Entry> := [];
    for k := 0 to |sources|
      invariant AllEntries(sources[..k], p) == Ok(entries)
    {
      EntriesStep(sources, p, k);
      var drafts := DraftsFor(sources[k], p);
      if drafts.Overflow? {
        OverflowStays(sources, p, k + 1);
        return Overflow;
      }
      entries := entries + Tagged(sources[k], p, drafts.value);
    }
    assert sources[..|sources|] == sources;
    return Ok(entries);
  }

  lemma {:induction false} OverflowStays(sources: seq<Source>, p: Profile, k: nat)
    requires p.Valid() && k <= |sources| && AllEntries(sources[..k], p).Overflow?
    ensures AllEntries(sources, p).Overflow?
    decreases |sources| - k
  {
    if k < |sources| {
      assert sources[..k + 1][..k] == sources[..k];
      OverflowStays(sources, p, k + 1);
    } else {
      assert sources[..k] == sources;
    }
  }

  lemma {:induction false} NumberStep(placed: seq<Windowed>, k: nat)
    requires k < |placed|
    ensures Numbered(placed[..k + 1])
         == Numbered(placed[..k])
            + [Chunk(k, placed[k].entry, |Of(Entries(placed[..k]), placed[k].entry.section)| + 1, placed[k].group)]
  {
    assert placed[..k + 1][..k] == placed[..k];
  }

  function OrderIn(orders: map<string, nat>, key: string): nat {
    if key in orders then orders[key] else 0
  }

  /** Chunks numbered so far in each section. */
  ghost predicate Counted(orders: map<string, nat>, placed: seq<Windowed>) {
    forall key :: OrderIn(orders, key) == |Of(Entries(placed), key)|
  }

  lemma {:induction false} CountMore(orders: map<string, nat>, placed: seq<Windowed>, k: nat)
    requires k < |placed| && Counted(orders, placed[..k])
    ensures var key := placed[k].entry.section;
      Counted(orders[key := OrderIn(orders, key) + 1], placed[..k + 1])
  {
    var key := placed[k].entry.section;
    var more := orders[key := OrderIn(orders, key) + 1];
    forall other
      ensures OrderIn(more, other) == |Of(Entries(placed[..k + 1]), other)|
    {
      assert Entries(placed[..k + 1])[..k] == Entries(placed[..k]);
      assert OrderIn(orders, other) == |Of(Entries(placed[..k]), other)|;
    }
  }

  lemma {:induction false} OneUnfit(placed: seq<Windowed>, k: nat, p: Profile)
    requires k < |placed| && !EntryFits(placed[k].entry, p)
    ensures !AllFit(Entries(placed), p)
  {
    assert Entries(placed)[k] == placed[k].entry;
  }

  predicate FitUpTo(placed: seq<Windowed>, k: nat, p: Profile)
    requires k <= |placed|
  {
    forall i | 0 <= i < k :: EntryFits(placed[i].entry, p)
  }

  lemma {:induction false} FitMore(placed: seq<Windowed>, k: nat, p: Profile)
    requires k < |placed| && FitUpTo(placed, k, p) && EntryFits(placed[k].entry, p)
    ensures FitUpTo(placed, k + 1, p)
  {
  }

  lemma {:induction false} AllFitting(placed: seq<Windowed>, p: Profile)
    requires FitUpTo(placed, |placed|, p)
    ensures AllFit(Entries(placed), p)
  {
  }

  /** Numbers the chunks, counting per section, and checks each serialization. */
  method NumberChunks(placed: seq<Windowed>, p: Profile) returns (r: Result<seq<Chunk>>)
    ensures r.Ok? <==> AllFit(Entries(placed), p)
    ensures r.Ok? ==> r.value == Numbered(placed)
  {
    var chunks: seq<Chunk> := [];
    var orders: map<string, nat> := map[];
    for k := 0 to |placed|
      invariant chunks == Numbered(placed[..k]) && |chunks| == k
      invariant Counted(orders, placed[..k])
      invariant FitUpTo(placed, k, p)
    {
      var w := placed[k];
      NumberStep(placed, k);
      CountMore(orders, placed, k);
      var order := OrderIn(orders, w.entry.section) + 1;
      orders := orders[w.entry.section := order];
      if Count(Serialized(w.entry.context, w.entry.draft.overlap, w.entry.draft.raw)) > p.childHardMax {
        OneUnfit(placed, k, p);
        return Overflow;
      }
      FitMore(placed, k, p);
      chunks := chunks + [Chunk(|chunks|, w.entry, order, w.group)];
    }
    AllFitting(placed, p);
    assert placed[..|placed|] == placed;
    return Ok(chunks);
  }

  lemma {:induction false} FitSurvivesPlacing(entries: seq<Entry>, p: Profile, target: int)
    ensures AllFit(Entries(Place(Keys(entries), entries, target)), p) <==> AllFit(entries, p)
  {
    var placed := Entries(Place(Keys(entries), entries, target));
    PlacementIsStable(entries, target);
    SameMembers(placed, entries);
    SameMembers(entries, placed);
  }

  lemma {:induction false} SameMembers(a: seq<Entry>, b: seq<Entry>)
    requires multiset(a) == multiset(b)
    ensures forall i | 0 <= i < |a| :: a[i] in b
  {
    forall i | 0 <= i < |a|
      ensures a[i] in b
    {
      assert a[i] in multiset(a);
    }
  }

  method BuildProjection(sources: seq<Source>, p: Profile) returns (r: Result<seq<Chunk>>)
    requires p.Valid()
    ensures r == Build(sources, p)
  {
    var entries := CollectEntries(sources, p);
    if entries.Overflow? {
      return Overflow;
    }
    var placed := AssignWindows(entries.value, p);
    if placed.Overflow? {
      return Overflow;
    }
    FitSurvivesPlacing(entries.value, p, p.parentTarget);
    r := NumberChunks(placed.value, p);
  }

  // ---- Exactly when it succeeds ----

  predicate AloneFits(s: Source, p: Profile)
    requires p.Valid()
  {
    s.Alone? ==> Fits(ContextOf(s, p), [], Strip(s.text), p.childHardMax)
  }

  predicate AloneAllFit(sources: seq<Source>, p: Profile)
    requires p.Valid()
  {
    forall i | 0 <= i < |sources| :: AloneFits(sources[i], p)
  }

  lemma {:induction false} BodySucceeds(s: Source, p: Profile)
    requires p.Valid() && HasRoom(p) && s.Body?
    ensures SourceDrafts(s, p).Ok? && AllFit(Tagged(s, p, SourceDrafts(s, p).value), p)
  {
    RoomSuffices(s.path, s.node, p);
    DraftsAreBounded(s.path, s.node, p);
    var drafts := SourceDrafts(s, p).value;
    var tagged := Tagged(s, p, drafts);
    forall i | 0 <= i < |tagged|
      ensures EntryFits(tagged[i], p)
    {
      assert DraftFits(ContextOf(s, p), drafts[i], p.childHardMax);
    }
  }

  lemma {:induction false} AloneIff(s: Source, p: Profile)
    requires p.Valid() && s.Alone?
    ensures SourceDrafts(s, p).Ok? && (AllFit(Tagged(s, p, SourceDrafts(s, p).value), p) <==> AloneFits(s, p))
  {
    var tagged := Tagged(s, p, SourceDrafts(s, p).value);
    assert |tagged| == 1 && tagged[0].draft.raw == Strip(s.text) && tagged[0].draft.overlap == [];
    assert EntryFits(tagged[0], p) <==> AloneFits(s, p);
  }

  lemma {:induction false} SourceSucceeds(s: Source, p: Profile)
    requires p.Valid() && HasRoom(p)
    ensures SourceDrafts(s, p).Ok?
    ensures AllFit(Tagged(s, p, SourceDrafts(s, p).value), p) <==> AloneFits(s, p)
  {
    if s.Body? {
      BodySucceeds(s, p);
    } else {
      AloneIff(s, p);
    }
  }

  lemma {:induction false} AllFitAppend(a: seq<Entry>, b: seq<Entry>, p: Profile)
    ensures AllFit(a + b, p) <==> AllFit(a, p) && AllFit(b, p)
  {
    if AllFit(a + b, p) {
      assert forall i | 0 <= i < |a| :: (a + b)[i] == a[i];
      assert forall i | 0 <= i < |b| :: (a + b)[|a| + i] == b[i];
    }
  }

  lemma {:induction false} AloneSnoc(sources: seq<Source>, k: nat, p: Profile)
    requires p.Valid() && k + 1 == |sources|
    ensures AloneAllFit(sources, p) <==> AloneAllFit(sources[..k], p) && AloneFits(sources[k], p)
  {
    assert sources == sources[..k] + [sources[k]];
  }

  lemma {:induction false} EntriesSucceed(sources: seq<Source>, p: Profile)
    requires p.Valid() && HasRoom(p)
    ensures AllEntries(sources, p).Ok?
    ensures AllFit(AllEntries(sources, p).value, p) <==> AloneAllFit(sources, p)
  {
    if sources != [] {
      var k := |sources| - 1;
      EntriesSucceed(sources[..k], p);
      SourceSucceeds(sources[k], p);
      AllFitAppend(AllEntries(sources[..k], p).value, Tagged(sources[k], p, SourceDrafts(sources[k], p).value), p);
      AloneSnoc(sources, k, p);
    }
  }

  lemma {:induction false} FitIsWithin(entries: seq<Entry>, p: Profile)
    requires AllFit(entries, p) && p.childHardMax <= p.parentHardMax
    ensures Within(entries, p.parentHardMax)
  {
    forall i | 0 <= i < |entries|
      ensures Load(entries[i]) <= p.parentHardMax
    {
      assert EntryFits(entries[i], p);
      SerializedCount(entries[i].context, entries[i].draft.overlap, entries[i].draft.raw);
    }
  }

  /** With room for text and parents no smaller than children, building fails only on a
      heading that has nothing under it and is too long by itself. */
  lemma {:induction false} BuildSucceedsIff(sources: seq<Source>, p: Profile)
    requires p.Valid() && HasRoom(p) && p.childHardMax <= p.parentHardMax
    ensures Build(sources, p).Ok? <==> AloneAllFit(sources, p)
  {
    EntriesSucceed(sources, p);
    if AloneAllFit(sources, p) {
      FitIsWithin(AllEntries(sources, p).value, p);
    }
  }

  predicate AllBodies(sources: seq<Source>) {
    forall i | 0 <= i < |sources| :: sources[i].Body?
  }

  lemma {:induction false} OneFullItem(p: Profile)
    requires p.Valid()
    ensures var s := Body([], "s", "n", ListEntry(Ideographs(p.childHardMax)));
      SourceDrafts(s, p).Ok? && |SourceDrafts(s, p).value| == 1
      && Count(SourceDrafts(s, p).value[0].raw) == p.childHardMax
  {
    var n := p.childHardMax;
    var atom := Atom(Ideographs(n), 0, n, ListItem);
    IdeographsShape(n);
    IdeographsUnits(n);
    assert NodeAtoms(ListEntry(Ideographs(n))) == [atom];
    FitsRoom([], [], atom.text, n);
    assert Count([]) == 0;
    assert [atom][1..] == [] && [] + [atom] == [atom];
    assert Context(CompactHeadingPath([], p.headingMax).path) == [];
    assert AtomDrafts([], p, [], [atom]) == Ok(Pack([], p, [atom]));
    assert Groups([], p, [atom], []) == Groups([], p, [], [atom]) == [[atom]];
    assert JoinAtoms([atom]) == atom.text by {
      assert AtomTexts([atom]) == [atom.text];
    }
  }

  lemma {:induction false} OneMoreSource(sources: seq<Source>, k: nat, p: Profile)
    requires p.Valid() && k + 1 == |sources|
    ensures AllEntries(sources, p) ==
      if AllEntries(sources[..k], p).Overflow? || SourceDrafts(sources[k], p).Overflow? then Overflow
      else Ok(AllEntries(sources[..k], p).value + Tagged(sources[k], p, SourceDrafts(sources[k], p).value))
  {
  }

  lemma {:induction false} OneSource(s: Source, p: Profile)
    requires p.Valid()
    ensures AllEntries([s], p).Ok? <==> SourceDrafts(s, p).Ok?
    ensures SourceDrafts(s, p).Ok? ==> AllEntries([s], p) == Ok(Tagged(s, p, SourceDrafts(s, p).value))
  {
    OneMoreSource([s], 0, p);
    assert [s][..0] == [] && AllEntries([], p) == Ok([]);
    if SourceDrafts(s, p).Ok? {
      NothingFirst(Tagged(s, p, SourceDrafts(s, p).value));
    }
  }

  /** Building never fails on any text at all if and only if the profile leaves room for
      text and its parents are no smaller than its children. */
  lemma {:induction false} BuildNeverFailsIff(p: Profile)
    requires p.Valid()
    ensures (forall sources | AllBodies(sources) :: Build(sources, p).Ok?)
       <==> HasRoom(p) && p.childHardMax <= p.parentHardMax
  {
    if !HasRoom(p) {
      var path, node := RoomIsNeeded(p);
      var s := Body(path, "s", "n", node);
      OneSource(s, p);
      assert AllBodies([s]) && Build([s], p).Overflow?;
    } else if p.childHardMax > p.parentHardMax {
      var s := Body([], "s", "n", ListEntry(Ideographs(p.childHardMax)));
      OneFullItem(p);
      OneSource(s, p);
      assert Load(AllEntries([s], p).value[0]) > p.parentHardMax;
      assert AllBodies([s]) && Build([s], p).Overflow?;
    } else {
      forall sources | AllBodies(sources)
        ensures Build(sources, p).Ok?
      {
        BuildSucceedsIff(sources, p);
      }
    }
  }

  // ---- What the chunks are ----

  /** The i-th chunk: its index, its entry and window, and its number in its section. */
  predicate ChunkAt(c: Chunk, placed: seq<Windowed>, i: nat)
    requires i < |placed|
  {
    && c.index == i && c.entry == placed[i].entry && c.window == placed[i].group
    && c.childOrder == |Of(Entries(placed[..i]), c.entry.section)| + 1
  }

  lemma {:induction false} ChunkStays(c: Chunk, placed: seq<Windowed>, k: nat, i: nat)
    requires i < k <= |placed| && ChunkAt(c, placed[..k], i)
    ensures ChunkAt(c, placed, i)
  {
    assert placed[..k][..i] == placed[..i];
  }

  lemma {:induction false} NumberedShape(placed: seq<Windowed>)
    ensures |Numbered(placed)| == |placed|
    ensures forall i | 0 <= i < |placed| :: ChunkAt(Numbered(placed)[i], placed, i)
  {
    if placed != [] {
      var k := |placed| - 1;
      NumberedShape(placed[..k]);
      forall i | 0 <= i < k
        ensures ChunkAt(Numbered(placed)[i], placed, i)
      {
        assert Numbered(placed)[i] == Numbered(placed[..k])[i];
        ChunkStays(Numbered(placed)[i], placed, k, i);
      }
    }
  }

  function ChunkEntries(chunks: seq<Chunk>): seq<Entry> {
    seq(|chunks|, i requires 0 <= i < |chunks| => chunks[i].entry)
  }

  /** Chunks are numbered through, and within each section from one. */
  predicate NumberedThrough(chunks: seq<Chunk>) {
    forall i | 0 <= i < |chunks| ::
      chunks[i].index == i && chunks[i].childOrder == |Of(ChunkEntries(chunks)[..i], chunks[i].entry.section)| + 1
  }

  lemma {:induction false} NumberedEntries(placed: seq<Windowed>)
    ensures ChunkEntries(Numbered(placed)) == Entries(placed) && NumberedThrough(Numbered(placed))
  {
    var chunks := Numbered(placed);
    NumberedShape(placed);
    forall i | 0 <= i < |chunks|
      ensures chunks[i].entry == placed[i].entry
    {
      assert ChunkAt(chunks[i], placed, i);
    }
    assert ChunkEntries(chunks) == Entries(placed);
    forall i | 0 <= i < |chunks|
      ensures chunks[i].index == i && chunks[i].childOrder == |Of(ChunkEntries(chunks)[..i], chunks[i].entry.section)| + 1
    {
      assert ChunkAt(chunks[i], placed, i);
      assert Entries(placed[..i]) == Entries(placed)[..i];
    }
  }

  lemma {:induction false} ChunksOf(entries: seq<Entry>, p: Profile)
    requires AllFit(entries, p)
    ensures var chunks := Numbered(Place(Keys(entries), entries, p.parentTarget));
      && NumberedThrough(chunks) && AllFit(ChunkEntries(chunks), p)
      && (forall key :: Of(ChunkEntries(chunks), key) == Of(entries, key))
      && multiset(ChunkEntries(chunks)) == multiset(entries)
  {
    NumberedEntries(Place(Keys(entries), entries, p.parentTarget));
    PlacementIsStable(entries, p.parentTarget);
    FitSurvivesPlacing(entries, p, p.parentTarget);
  }

  /** Every chunk is within the child limit, and each section's chunks are its drafts, all of
      them and in order, numbered through. */
  lemma {:induction false} ChunksAreTheDrafts(sources: seq<Source>, p: Profile)
    requires p.Valid() && Build(sources, p).Ok?
    ensures var chunks := Build(sources, p).value; var entries := AllEntries(sources, p).value;
      && NumberedThrough(chunks) && AllFit(ChunkEntries(chunks), p)
      && (forall key :: Of(ChunkEntries(chunks), key) == Of(entries, key))
      && multiset(ChunkEntries(chunks)) == multiset(entries)
  {
    ChunksOf(AllEntries(sources, p).value, p);
  }
}
