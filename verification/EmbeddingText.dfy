/** The chunk profile, the text a chunk is embedded as, and its heading context. */
module EmbeddingText {
  import opened Characters
  import opened Tokenizer

  datatype Profile = Profile(
    childTarget: int, childHardMax: int, childMin: int,
    parentTarget: int, parentHardMax: int,
    overlap: int, headingMax: int)
  {
    predicate Valid() {
      && 0 < childMin <= childTarget <= childHardMax
      && 0 < parentTarget <= parentHardMax
      && 0 <= overlap <= childHardMax
      && 0 < headingMax
    }
  }

  function Join(parts: seq<Text>, separator: Text): Text {
    if parts == [] then []
    else if |parts| == 1 then parts[0]
    else parts[0] + separator + Join(parts[1..], separator)
  }

  function SumCounts(parts: seq<Text>): nat {
    if parts == [] then 0 else Count(parts[0]) + SumCounts(parts[1..])
  }

  lemma {:induction false} SumCountsAppend(a: seq<Text>, b: seq<Text>)
    ensures SumCounts(a + b) == SumCounts(a) + SumCounts(b)
  {
    if a == [] {
      assert a + b == b;
    } else {
      assert (a + b)[1..] == a[1..] + b;
      SumCountsAppend(a[1..], b);
    }
  }

  lemma {:induction false} JoinCount(parts: seq<Text>, separator: Text)
    requires separator != [] && AllSpace(separator)
    ensures Count(Join(parts, separator)) == SumCounts(parts)
  {
    if |parts| == 1 {
      assert SumCounts(parts[1..]) == 0;
    } else if parts != [] {
      CountAcrossSpace(parts[0], separator, Join(parts[1..], separator));
      JoinCount(parts[1..], separator);
    }
  }

  lemma {:induction false} JoinInk(parts: seq<Text>, separator: Text)
    requires AllSpace(separator)
    ensures Ink(Join(parts, separator)) == Ink(Flatten(parts))
  {
    if |parts| == 1 {
      assert Flatten(parts) == parts[0] + [] == parts[0];
    } else if parts != [] {
      InkAppend(parts[0] + separator, Join(parts[1..], separator));
      InkAppend(parts[0], separator);
      InkOfSpace(separator);
      JoinInk(parts[1..], separator);
      InkAppend(parts[0], Flatten(parts[1..]));
    }
  }

  /** The parts that are not blank. */
  function Visible(parts: seq<Text>): seq<Text> {
    if parts == [] then []
    else (if AllSpace(parts[0]) then [] else [parts[0]]) + Visible(parts[1..])
  }

  lemma {:induction false} VisibleCount(parts: seq<Text>)
    ensures SumCounts(Visible(parts)) == SumCounts(parts)
  {
    if parts != [] {
      NoTokensIsSpace(parts[0]);
      VisibleCount(parts[1..]);
      if !AllSpace(parts[0]) {
        assert Visible(parts)[1..] == Visible(parts[1..]);
      } else {
        assert Visible(parts) == Visible(parts[1..]);
      }
    }
  }

  /** What is embedded for a fragment: its context lines, the overlap carried over from
      the previous fragment, and the fragment itself, blank parts left out. */
  function Serialized(context: seq<Text>, overlap: Text, raw: Text): Text {
    Join(Visible(context + (if overlap == [] then [] else [overlap]) + [raw]), BLANK_LINE)
  }

  /** Serialization costs exactly the tokens of its parts. */
  lemma {:induction false} SerializedCount(context: seq<Text>, overlap: Text, raw: Text)
    ensures Count(Serialized(context, overlap, raw)) == SumCounts(context) + Count(overlap) + Count(raw)
  {
    var middle := if overlap == [] then [] else [overlap];
    VisibleCount(context + middle + [raw]);
    JoinCount(Visible(context + middle + [raw]), BLANK_LINE);
    SumCountsAppend(context + middle, [raw]);
    SumCountsAppend(context, middle);
    assert SumCounts([raw]) == Count(raw) + SumCounts([]);
    assert overlap != [] ==> SumCounts([overlap]) == Count(overlap) + SumCounts([]);
  }

  predicate Fits(context: seq<Text>, overlap: Text, raw: Text, hardMax: int) {
    Count(Serialized(context, overlap, raw)) <= hardMax
  }

  datatype Heading = Heading(nodeId: string, level: int, text: Text)

  function Texts(path: seq<Heading>): seq<Text> {
    seq(|path|, i requires 0 <= i < |path| => path[i].text)
  }

  /** The top heading once, then the whole path. */
  function Context(path: seq<Heading>): seq<Text> {
    if path == [] then [] else [path[0].text] + Texts(path)
  }

  function Encoded(path: seq<Heading>): Text {
    Join(Texts(path), [NEWLINE])
  }

  function FitTokens(value: Text, limit: nat): Text {
    if Count(value) <= limit then value
    else DropTrailingSpace(value[..LongestFit(value, limit)])
  }

  lemma {:induction false} FitTokensBound(value: Text, limit: nat)
    ensures Count(FitTokens(value, limit)) <= limit
    ensures FitTokens(value, limit) <= value
  {
    if Count(value) > limit {
      var n := LongestFit(value, limit);
      LongestFitMaximal(value, limit);
      DropTrailingSpaceInk(value[..n]);
      var kept := DropTrailingSpace(value[..n]);
      CountPrefix(value[..n], |kept|, n);
      assert value[..n][..n] == value[..n] && value[..n][..|kept|] == kept;
      assert Count([]) == 0;
    }
  }

  method TruncateTokens(value: Text, limit: nat) returns (fitted: Text)
    ensures fitted == FitTokens(value, limit)
  {
    if Count(value) <= limit {
      return value;
    }
    var end: nat := |value|;
    while end != 0 && Count(value[..end]) > limit
      invariant end <= |value|
      invariant end < |value| ==> Count(value[..end + 1]) > limit
    {
      end := end - 1;
    }
    assert value[..|value|] == value;
    LongestFitUnique(value, limit, end);
    fitted := DropTrailingSpace(value[..end]);
  }

  /** Heading paths lose their second heading until they fit or only two are left. */
  function DropMiddle(path: seq<Heading>, limit: int): (kept: seq<Heading>)
    ensures |kept| <= |path|
    ensures path != [] ==> kept != [] && kept[0] == path[0] && kept[|kept| - 1] == path[|path| - 1]
    ensures |kept| <= 2 || Count(Encoded(kept)) <= limit
  {
    if |path| > 2 && Count(Encoded(path)) > limit then DropMiddle(path[..1] + path[2..], limit)
    else path
  }

  datatype Compacted = Compacted(path: seq<Heading>, truncated: bool)

  function Shorten(path: seq<Heading>, headingMax: int): seq<Heading>
    requires path != [] && headingMax > 0
  {
    var first, last := path[0], path[|path| - 1];
    var share := headingMax / (if |path| > 1 then 2 else 1);
    var allowed := if share < 1 then 1 else share;
    [first.(text := FitTokens(first.text, allowed))]
    + if first.nodeId != last.nodeId then [last.(text := FitTokens(last.text, allowed))] else []
  }

  function CompactHeadingPath(path: seq<Heading>, headingMax: int): Compacted
    requires headingMax > 0
  {
    if path == [] then Compacted([], false)
    else
      var kept := DropMiddle(path, headingMax);
      if Count(Encoded(kept)) > headingMax then Compacted(Shorten(kept, headingMax), true)
      else Compacted(kept, |kept| < |path|)
  }

  method CompactPath(path: seq<Heading>, headingMax: int) returns (compact: seq<Heading>, truncated: bool)
    requires headingMax > 0
    ensures Compacted(compact, truncated) == CompactHeadingPath(path, headingMax)
  {
    if path == [] {
      return [], false;
    }
    var values := path;
    truncated := false;
    while |values| > 2 && Count(Encoded(values)) > headingMax
      invariant values != [] && |values| <= |path|
      invariant DropMiddle(values, headingMax) == DropMiddle(path, headingMax)
      invariant truncated == (|values| < |path|)
      decreases |values|
    {
      values := values[..1] + values[2..];
      truncated := true;
    }
    if Count(Encoded(values)) > headingMax {
      var first, last := values[0], values[|values| - 1];
      var allowed := headingMax / (if |values| > 1 then 2 else 1);
      if allowed < 1 {
        allowed := 1;
      }
      var text := TruncateTokens(first.text, allowed);
      values := [first.(text := text)];
      if first.nodeId != last.nodeId {
        text := TruncateTokens(last.text, allowed);
        values := values + [last.(text := text)];
      }
      truncated := true;
    }
    compact := values;
  }

  /** The most tokens the heading context can cost. */
  function MaxContext(headingMax: int): int {
    if headingMax == 1 then 3 else 2 * headingMax
  }

  lemma {:induction false} ContextCount(path: seq<Heading>)
    ensures path != [] ==>
      SumCounts(Context(path)) == Count(path[0].text) + Count(Encoded(path))
    ensures path != [] ==> Count(path[0].text) <= Count(Encoded(path))
  {
    if path != [] {
      assert Context(path)[1..] == Texts(path);
      JoinCount(Texts(path), [NEWLINE]);
    }
  }

  /** However deep the outline and however long its titles, the context stays bounded;
      titles are cut from the end only, and the outermost and innermost headings remain. */
  lemma {:induction false} ContextBound(path: seq<Heading>, headingMax: int)
    requires headingMax > 0
    ensures var compact := CompactHeadingPath(path, headingMax).path;
      && SumCounts(Context(compact)) <= MaxContext(headingMax)
      && (path != [] ==>
        && compact != []
        && compact[0].nodeId == path[0].nodeId
        && compact[0].text <= path[0].text
        && compact[|compact| - 1].nodeId == path[|path| - 1].nodeId)
  {
    if path != [] {
      var kept := DropMiddle(path, headingMax);
      var compact := CompactHeadingPath(path, headingMax).path;
      ContextCount(compact);
      if Count(Encoded(kept)) > headingMax {
        var share := headingMax / (if |kept| > 1 then 2 else 1);
        var allowed := if share < 1 then 1 else share;
        FitTokensBound(kept[0].text, allowed);
        FitTokensBound(kept[|kept| - 1].text, allowed);
        JoinCount(Texts(compact), [NEWLINE]);
        var texts := Texts(compact);
        assert SumCounts(texts) == Count(texts[0]) + SumCounts(texts[1..]);
        if |compact| == 2 {
          assert SumCounts(texts[1..]) == Count(texts[1]) + SumCounts(texts[2..]);
          assert |kept| > 1;
        } else {
          assert texts[1..] == [];
        }
      }
    }
  }
}
