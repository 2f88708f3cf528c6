/** Parent windows: the drafts of each section, in order, grouped greedily by raw tokens. */
module Windows {
  import opened Characters
  import opened Tokenizer
  import opened EmbeddingText
  import opened ForcedSplit
  import opened NodeDrafts

  /** A draft with its section and the heading context it is serialized with. */
  datatype Entry = Entry(section: string, sectionNode: string, draft: Draft, context: seq<Text>)

  datatype WindowId = WindowId(sectionNode: string, order: nat)

  datatype Windowed = Windowed(entry: Entry, order: nat, group: WindowId)

  function Load(e: Entry): nat {
    Count(e.draft.raw)
  }

  function Total(entries: seq<Entry>): nat {
    if entries == [] then 0 else Load(entries[0]) + Total(entries[1..])
  }

  lemma {:induction false} TotalAppend(a: seq<Entry>, b: seq<Entry>)
    ensures Total(a + b) == Total(a) + Total(b)
  {
    if a == [] {
      assert a + b == b;
    } else {
      assert (a + b)[1..] == a[1..] + b;
      TotalAppend(a[1..], b);
    }
  }

  lemma {:induction false} TotalSnoc(a: seq<Entry>, e: Entry)
    ensures Total(a + [e]) == Total(a) + Load(e)
  {
    TotalAppend(a, [e]);
    assert Total([e]) == Load(e) + Total([]);
  }

  /** A window the greedy rule could produce: within the target, or nothing but a last
      draft that is over it by itself. */
  predicate Acceptable(window: seq<Entry>, target: int) {
    window != [] && (Total(window) <= target || Total(window[..|window| - 1]) == 0)
  }

  predicate Starts(open: seq<Entry>, e: Entry, target: int) {
    Total(open) != 0 && Total(open) + Load(e) > target
  }

  /** The windows of one section, `open` being the one still filling. */
  function Split(entries: seq<Entry>, open: seq<Entry>, target: int): seq<seq<Entry>>
    decreases |entries|
  {
    if entries == [] then (if open == [] then [] else [open])
    else if Starts(open, entries[0], target) then [open] + Split(entries[1..], [entries[0]], target)
    else Split(entries[1..], open + [entries[0]], target)
  }

  predicate AllAcceptable(windows: seq<seq<Entry>>, target: int) {
    forall i | 0 <= i < |windows| :: Acceptable(windows[i], target)
  }

  lemma {:induction false} AcceptableSnoc(open: seq<Entry>, e: Entry, target: int)
    ensures Acceptable(open + [e], target) <==> !Starts(open, e, target)
  {
    TotalSnoc(open, e);
    assert (open + [e])[..|open|] == open;
  }

  lemma {:induction false} SplitLaws(entries: seq<Entry>, open: seq<Entry>, target: int)
    requires open == [] || Acceptable(open, target)
    ensures Flatten(Split(entries, open, target)) == open + entries
    ensures AllAcceptable(Split(entries, open, target), target)
    decreases |entries|
  {
    if entries == [] {
      assert open + [] == open;
    } else {
      var e, rest := entries[0], entries[1..];
      AcceptableSnoc([], e, target);
      AcceptableSnoc(open, e, target);
      assert [] + [e] == [e];
      if Starts(open, e, target) {
        SplitLaws(rest, [e], target);
        assert [e] + rest == entries;
      } else {
        SplitLaws(rest, open + [e], target);
        assert open + [e] + rest == open + entries;
      }
    }
  }

  // ---- The fewest windows ----

  predicate Suffix(a: seq<Entry>, b: seq<Entry>) {
    |a| <= |b| && b[|b| - |a|..] == a
  }

  lemma {:induction false} SuffixTotal(a: seq<Entry>, b: seq<Entry>)
    requires Suffix(a, b)
    ensures Total(a) <= Total(b)
  {
    TotalAppend(b[..|b| - |a|], a);
    assert b == b[..|b| - |a|] + a;
  }

  /** Any window of another grouping that holds `open` and goes on to e shows that the
      greedy rule keeps e in its open window. */
  lemma {:induction false} Hereditary(open: seq<Entry>, held: seq<Entry>, ahead: seq<Entry>, target: int)
    requires Suffix(open, held) && ahead != [] && Acceptable(held + ahead, target)
    ensures !Starts(open, ahead[0], target)
  {
    var window := held + ahead;
    SuffixTotal(open, held);
    TotalAppend(held, ahead);
    var k := |ahead| - 1;
    assert window[..|window| - 1] == held + ahead[..k];
    TotalAppend(held, ahead[..k]);
    assert Total(ahead) == Load(ahead[0]) + Total(ahead[1..]);
  }

  /** The next draft in the other grouping: what its window has taken and will take. */
  lemma {:induction false} Advance(
    entries: seq<Entry>, target: int, held: seq<Entry>, ahead: seq<Entry>, later: seq<seq<Entry>>)
    returns (held': seq<Entry>, ahead': seq<Entry>, later': seq<seq<Entry>>)
    requires entries != [] && entries == ahead + Flatten(later)
    requires Acceptable(held + ahead, target) && AllAcceptable(later, target)
    ensures entries[1..] == ahead' + Flatten(later')
    ensures Acceptable(held' + ahead', target) && AllAcceptable(later', target)
    ensures if ahead != [] then held' == held + [entries[0]] && later' == later && ahead[0] == entries[0]
            else held' == [entries[0]] && |later'| + 1 == |later|
  {
    var e := entries[0];
    if ahead != [] {
      held', ahead', later' := held + [e], ahead[1..], later;
      assert held' + ahead' == held + ahead;
      assert entries[1..] == ahead' + Flatten(later');
    } else {
      assert later != [] && Acceptable(later[0], target);
      assert entries == later[0] + Flatten(later[1..]);
      held', ahead', later' := [e], later[0][1..], later[1..];
      assert held' + ahead' == later[0];
      assert entries[1..] == ahead' + Flatten(later');
    }
  }

  /** Compared with any acceptable grouping, of which the current window has taken `held`
      and will take `ahead`, the greedy rule is never more than one window behind, and not
      behind at all while its open window began no earlier. */
  lemma {:induction false} GreedyKeepsUp(
    entries: seq<Entry>, open: seq<Entry>, target: int,
    held: seq<Entry>, ahead: seq<Entry>, later: seq<seq<Entry>>)
    requires entries == ahead + Flatten(later)
    requires held != [] && Acceptable(held + ahead, target) && AllAcceptable(later, target)
    requires open != [] && (Suffix(open, held) || Suffix(held, open))
    ensures |Split(entries, open, target)| <= |later| + if Suffix(open, held) then 1 else 2
    decreases |entries|
  {
    if entries != [] {
      var e, rest := entries[0], entries[1..];
      var held', ahead', later' := Advance(entries, target, held, ahead, later);
      LastSuffix(held, e);
      if Starts(open, e, target) {
        if Suffix(open, held) && ahead != [] {
          Hereditary(open, held, ahead, target);
        }
        GreedyKeepsUp(rest, [e], target, held', ahead', later');
      } else {
        LastSuffix(open, e);
        SuffixSnoc(open, held, e);
        SuffixSnoc(held, open, e);
        GreedyKeepsUp(rest, open + [e], target, held', ahead', later');
      }
    }
  }

  lemma {:induction false} LastSuffix(a: seq<Entry>, e: Entry)
    ensures Suffix([e], a + [e]) && Suffix([e], [e])
  {
  }

  lemma {:induction false} SuffixSnoc(a: seq<Entry>, b: seq<Entry>, e: Entry)
    ensures Suffix(a, b) ==> Suffix(a + [e], b + [e])
  {
    if Suffix(a, b) {
      assert (b + [e])[|b| - |a|..] == b[|b| - |a|..] + [e];
    }
  }

  /** No contiguous grouping into acceptable windows uses fewer windows. */
  lemma {:induction false} FewestWindows(entries: seq<Entry>, target: int, other: seq<seq<Entry>>)
    requires Flatten(other) == entries && AllAcceptable(other, target)
    ensures |Split(entries, [], target)| <= |other|
  {
    if entries != [] {
      var e := entries[0];
      assert other != [] && Acceptable(other[0], target);
      assert other[0][0] == e;
      assert [] + [e] == [e];
      assert [e] + other[0][1..] == other[0];
      assert entries[1..] == other[0][1..] + Flatten(other[1..]);
      assert Split(entries, [], target) == Split(entries[1..], [e], target);
      GreedyKeepsUp(entries[1..], [e], target, [e], other[0][1..], other[1..]);
    }
  }

  /** When every draft is within the parent limit, so is every window; within the parent
      target, when every draft is. */
  lemma {:induction false} WindowsAreBounded(entries: seq<Entry>, target: int, limit: int)
    requires target <= limit
    requires forall i | 0 <= i < |entries| :: Load(entries[i]) <= limit
    ensures forall w | w in Split(entries, [], target) :: Total(w) <= limit
  {
    SplitLaws(entries, [], target);
    var windows := Split(entries, [], target);
    assert [] + entries == entries;
    forall w | w in windows
      ensures Total(w) <= limit
    {
      var k :| 0 <= k < |windows| && windows[k] == w;
      assert Acceptable(windows[k], target);
      var last := w[|w| - 1];
      assert w == w[..|w| - 1] + [last];
      TotalSnoc(w[..|w| - 1], last);
      InFlatten(windows, k, last);
      assert last in entries;
    }
  }

  lemma {:induction false} InFlatten(windows: seq<seq<Entry>>, k: nat, e: Entry)
    requires k < |windows| && e in windows[k]
    ensures e in Flatten(windows)
  {
    if k > 0 {
      InFlatten(windows[1..], k - 1, e);
    }
  }

  // ---- Sections ----

  /** Section keys in order of first appearance. */
  function Keys(entries: seq<Entry>): seq<string> {
    if entries == [] then []
    else
      var k, before := |entries| - 1, Keys(entries[..|entries| - 1]);
      before + if entries[k].section in before then [] else [entries[k].section]
  }

  function Of(entries: seq<Entry>, key: string): seq<Entry> {
    if entries == [] then []
    else
      var k := |entries| - 1;
      Of(entries[..k], key) + if entries[k].section == key then [entries[k]] else []
  }

  function Number(windows: seq<seq<Entry>>, order: nat): seq<Windowed> {
    if windows == [] then [] else Stamp(windows[0], order) + Number(windows[1..], order + 1)
  }

  function Stamp(window: seq<Entry>, order: nat): seq<Windowed> {
    seq(|window|, i requires 0 <= i < |window| =>
      Windowed(window[i], order, WindowId(window[i].sectionNode, order)))
  }

  function PlaceSection(entries: seq<Entry>, target: int): seq<Windowed> {
    Number(Split(entries, [], target), 1)
  }

  function Place(keys: seq<string>, entries: seq<Entry>, target: int): seq<Windowed> {
    if keys == [] then []
    else
      var k := |keys| - 1;
      Place(keys[..k], entries, target) + PlaceSection(Of(entries, keys[k]), target)
  }

  /** What the running loop emits from here on. */
  function Emit(entries: seq<Entry>, tokens: nat, order: nat, target: int): seq<Windowed>
    decreases |entries|
  {
    if entries == [] then []
    else
      var e := entries[0];
      var starts := tokens != 0 && tokens + Load(e) > target;
      var order' := if starts then order + 1 else order;
      Stamp([e], order')
      + Emit(entries[1..], (if starts then 0 else tokens) + Load(e), order', target)
  }

  lemma {:induction false} StampAppend(a: seq<Entry>, b: seq<Entry>, order: nat)
    ensures Stamp(a + b, order) == Stamp(a, order) + Stamp(b, order)
  {
  }

  lemma {:induction false} EmitNumbers(entries: seq<Entry>, open: seq<Entry>, order: nat, target: int)
    ensures Number(Split(entries, open, target), order) == Stamp(open, order) + Emit(entries, Total(open), order, target)
    decreases |entries|
  {
    if entries == [] {
      assert Number([open][1..], order + 1) == [];
      assert open == [] ==> Stamp(open, order) == [];
    } else {
      var e, rest := entries[0], entries[1..];
      if Starts(open, e, target) {
        EmitNumbers(rest, [e], order + 1, target);
        assert Total([e]) == Load(e) + Total([]);
        assert ([open] + Split(rest, [e], target))[1..] == Split(rest, [e], target);
      } else {
        EmitNumbers(rest, open + [e], order, target);
        TotalSnoc(open, e);
        StampAppend(open, [e], order);
      }
    }
  }

  predicate Within(entries: seq<Entry>, limit: int) {
    forall i | 0 <= i < |entries| :: Load(entries[i]) <= limit
  }

  lemma {:induction false} WithinSnoc(entries: seq<Entry>, k: nat, limit: int)
    requires k < |entries| && Within(entries[..k], limit) && Load(entries[k]) <= limit
    ensures Within(entries[..k + 1], limit)
  {
  }

  lemma {:induction false} TooLarge(entries: seq<Entry>, k: nat, limit: int)
    requires k < |entries| && Load(entries[k]) > limit
    ensures !Within(entries, limit)
  {
  }

  /** One more entry emitted. */
  lemma {:induction false} EmitStep(output: seq<Windowed>, section: seq<Entry>, k: nat, tokens: nat, order: nat, target: int)
    requires k < |section|
    ensures var e := section[k]; var starts := tokens != 0 && tokens + Load(e) > target;
      var order' := if starts then order + 1 else order;
      output + Emit(section[k..], tokens, order, target)
      == output + [Windowed(e, order', WindowId(e.sectionNode, order'))]
         + Emit(section[k + 1..], (if starts then 0 else tokens) + Load(e), order', target)
  {
    assert section[k..][0] == section[k] && section[k..][1..] == section[k + 1..];
    var starts := tokens != 0 && tokens + Load(section[k]) > target;
    var order' := if starts then order + 1 else order;
    assert Stamp([section[k]], order') == [Windowed(section[k], order', WindowId(section[k].sectionNode, order'))];
  }

  method PlaceOne(section: seq<Entry>, p: Profile) returns (r: Result<seq<Windowed>>)
    ensures r.Ok? <==> Within(section, p.parentHardMax)
    ensures r.Ok? ==> r.value == PlaceSection(section, p.parentTarget)
  {
    var output: seq<Windowed> := [];
    var windowOrder: nat, currentTokens: nat := 1, 0;
    EmitNumbers(section, [], 1, p.parentTarget);
    assert section[0..] == section;
    for k := 0 to |section|
      invariant Within(section[..k], p.parentHardMax)
      invariant PlaceSection(section, p.parentTarget)
             == output + Emit(section[k..], currentTokens, windowOrder, p.parentTarget)
    {
      var entry := section[k];
      var tokens := Load(entry);
      EmitStep(output, section, k, currentTokens, windowOrder, p.parentTarget);
      if currentTokens != 0 && currentTokens + tokens > p.parentTarget {
        windowOrder := windowOrder + 1;
        currentTokens := 0;
      }
      if tokens > p.parentHardMax {
        TooLarge(section, k, p.parentHardMax);
        return Overflow;
      }
      WithinSnoc(section, k, p.parentHardMax);
      currentTokens := currentTokens + tokens;
      output := output + [Windowed(entry, windowOrder, WindowId(entry.sectionNode, windowOrder))];
    }
    assert section[|section|..] == [] && section[..|section|] == section;
    return Ok(output);
  }

  method GroupBySection(entries: seq<Entry>) returns (keys: seq<string>, bySection: map<string, seq<Entry>>)
    ensures keys == Keys(entries)
    ensures forall key :: key in bySection <==> key in keys
    ensures forall key | key in bySection :: bySection[key] == Of(entries, key)
  {
    keys := [];
    bySection := map[];
    for k := 0 to |entries|
      invariant keys == Keys(entries[..k])
      invariant forall key :: key in bySection <==> key in keys
      invariant forall key :: Of(entries[..k], key) == if key in bySection then bySection[key] else []
    {
      var entry := entries[k];
      assert entries[..k + 1][..k] == entries[..k];
      if entry.section !in bySection {
        keys := keys + [entry.section];
        bySection := bySection[entry.section := []];
      }
      bySection := bySection[entry.section := bySection[entry.section] + [entry]];
    }
    assert entries[..|entries|] == entries;
  }

  lemma {:induction false} PlaceStep(keys: seq<string>, k: nat, entries: seq<Entry>, target: int)
    requires k < |keys|
    ensures Place(keys[..k + 1], entries, target)
         == Place(keys[..k], entries, target) + PlaceSection(Of(entries, keys[k]), target)
  {
    assert keys[..k + 1][..k] == keys[..k];
  }

  /** Section after section, as long as every draft is within the limit. */
  method PlaceAll(keys: seq<string>, bySection: map<string, seq<Entry>>, p: Profile, ghost entries: seq<Entry>)
    returns (r: Result<seq<Windowed>>)
    requires forall key | key in keys :: key in bySection && bySection[key] == Of(entries, key)
    ensures r.Ok? <==> forall key | key in keys :: Within(Of(entries, key), p.parentHardMax)
    ensures r.Ok? ==> r.value == Place(keys, entries, p.parentTarget)
  {
    var output: seq<Windowed> := [];
    for k := 0 to |keys|
      invariant forall key | key in keys[..k] :: Within(Of(entries, key), p.parentHardMax)
      invariant output == Place(keys[..k], entries, p.parentTarget)
    {
      var key := keys[k];
      assert key in keys && keys[..k + 1] == keys[..k] + [key];
      var placed := PlaceOne(bySection[key], p);
      if placed.Overflow? {
        return Overflow;
      }
      PlaceStep(keys, k, entries, p.parentTarget);
      output := output + placed.value;
    }
    assert keys[..|keys|] == keys;
    return Ok(output);
  }

  method AssignWindows(entries: seq<Entry>, p: Profile) returns (r: Result<seq<Windowed>>)
    ensures r.Ok? <==> Within(entries, p.parentHardMax)
    ensures r.Ok? ==> r.value == Place(Keys(entries), entries, p.parentTarget)
  {
    var keys, bySection := GroupBySection(entries);
    WithinSections(entries, p.parentHardMax);
    r := PlaceAll(keys, bySection, p, entries);
  }

  // ---- The output is a stable rearrangement by section ----

  lemma {:induction false} OfMembers(entries: seq<Entry>, key: string, e: Entry)
    ensures multiset(Of(entries, key))[e] == if e.section == key then multiset(entries)[e] else 0
  {
    if entries != [] {
      var k := |entries| - 1;
      OfMembers(entries[..k], key, e);
      assert entries == entries[..k] + [entries[k]];
    }
  }

  lemma {:induction false} KeysCover(entries: seq<Entry>)
    ensures forall e | e in entries :: e.section in Keys(entries)
    ensures forall i, j | 0 <= i < j < |Keys(entries)| :: Keys(entries)[i] != Keys(entries)[j]
  {
    if entries != [] {
      var k := |entries| - 1;
      KeysCover(entries[..k]);
      assert entries == entries[..k] + [entries[k]];
    }
  }

  lemma {:induction false} InOf(entries: seq<Entry>, key: string, e: Entry)
    ensures e in Of(entries, key) <==> e in entries && e.section == key
  {
    OfMembers(entries, key, e);
    assert e in Of(entries, key) <==> multiset(Of(entries, key))[e] > 0;
    assert e in entries <==> multiset(entries)[e] > 0;
  }

  lemma {:induction false} WithinSection(entries: seq<Entry>, limit: int, key: string)
    requires Within(entries, limit)
    ensures Within(Of(entries, key), limit)
  {
    var section := Of(entries, key);
    forall j | 0 <= j < |section|
      ensures Load(section[j]) <= limit
    {
      InOf(entries, key, section[j]);
    }
  }

  lemma {:induction false} WithinSections(entries: seq<Entry>, limit: int)
    ensures Within(entries, limit) <==> forall key | key in Keys(entries) :: Within(Of(entries, key), limit)
  {
    KeysCover(entries);
    if Within(entries, limit) {
      forall key | key in Keys(entries)
        ensures Within(Of(entries, key), limit)
      {
        WithinSection(entries, limit, key);
      }
    } else {
      var j :| 0 <= j < |entries| && Load(entries[j]) > limit;
      InOf(entries, entries[j].section, entries[j]);
      assert !Within(Of(entries, entries[j].section), limit);
    }
  }

  lemma {:induction false} OfMissing(entries: seq<Entry>, key: string)
    requires forall e | e in entries :: e.section != key
    ensures Of(entries, key) == []
  {
    if entries != [] {
      OfMissing(entries[..|entries| - 1], key);
    }
  }

  function Entries(placed: seq<Windowed>): seq<Entry> {
    seq(|placed|, i requires 0 <= i < |placed| => placed[i].entry)
  }

  lemma {:induction false} OfAppend(a: seq<Entry>, b: seq<Entry>, key: string)
    ensures Of(a + b, key) == Of(a, key) + Of(b, key)
  {
    if b == [] {
      assert a + b == a;
    } else {
      var k := |b| - 1;
      assert (a + b)[..|a| + k] == a + b[..k];
      OfAppend(a, b[..k], key);
    }
  }

  lemma {:induction false} OfOf(entries: seq<Entry>, section: string, key: string)
    ensures Of(Of(entries, section), key) == if section == key then Of(entries, key) else []
  {
    if entries != [] {
      var k := |entries| - 1;
      OfOf(entries[..k], section, key);
      var last := if entries[k].section == section then [entries[k]] else [];
      OfAppend(Of(entries[..k], section), last, key);
      assert last != [] ==> last[..0] == [];
    }
  }

  lemma {:induction false} NumberEntries(windows: seq<seq<Entry>>, order: nat)
    ensures Entries(Number(windows, order)) == Flatten(windows)
  {
    if windows != [] {
      NumberEntries(windows[1..], order + 1);
      assert Entries(Stamp(windows[0], order)) == windows[0];
      assert Entries(Stamp(windows[0], order) + Number(windows[1..], order + 1))
          == windows[0] + Flatten(windows[1..]);
    }
  }

  lemma {:induction false} SectionEntries(section: seq<Entry>, target: int)
    ensures Entries(PlaceSection(section, target)) == section
  {
    NumberEntries(Split(section, [], target), 1);
    SplitLaws(section, [], target);
    assert [] + section == section;
  }

  lemma {:induction false} OfPlaced(before: seq<Windowed>, section: seq<Entry>, target: int, key: string)
    ensures Of(Entries(before + PlaceSection(section, target)), key) == Of(Entries(before), key) + Of(section, key)
  {
    var placed := PlaceSection(section, target);
    assert Entries(before + placed) == Entries(before) + Entries(placed);
    SectionEntries(section, target);
    OfAppend(Entries(before), section, key);
  }

  predicate Distinct(keys: seq<string>) {
    forall i, j | 0 <= i < j < |keys| :: keys[i] != keys[j]
  }

  lemma {:induction false} DistinctLast(keys: seq<string>, k: nat)
    requires Distinct(keys) && k + 1 == |keys|
    ensures Distinct(keys[..k]) && keys[k] !in keys[..k]
    ensures forall key :: key in keys <==> key in keys[..k] || key == keys[k]
  {
    assert keys == keys[..k] + [keys[k]];
  }

  lemma {:induction false} PlaceKeepsSections(keys: seq<string>, entries: seq<Entry>, target: int, key: string)
    requires Distinct(keys)
    ensures Of(Entries(Place(keys, entries, target)), key) == if key in keys then Of(entries, key) else []
  {
    if keys != [] {
      var k := |keys| - 1;
      DistinctLast(keys, k);
      PlaceKeepsSections(keys[..k], entries, target, key);
      OfPlaced(Place(keys[..k], entries, target), Of(entries, keys[k]), target, key);
      OfOf(entries, keys[k], key);
    }
  }

  /** Placing the drafts rearranges them by section and keeps the order inside each. */
  lemma {:induction false} PlacementIsStable(entries: seq<Entry>, target: int)
    ensures var placed := Entries(Place(Keys(entries), entries, target));
      && (forall key :: Of(placed, key) == Of(entries, key))
      && multiset(placed) == multiset(entries)
  {
    var placed := Entries(Place(Keys(entries), entries, target));
    KeysCover(entries);
    forall key
      ensures Of(placed, key) == Of(entries, key)
    {
      PlaceKeepsSections(Keys(entries), entries, target, key);
      if key !in Keys(entries) {
        OfMissing(entries, key);
      }
    }
    forall e: Entry
      ensures multiset(placed)[e] == multiset(entries)[e]
    {
      OfMembers(placed, e.section, e);
      OfMembers(entries, e.section, e);
    }
  }
}
