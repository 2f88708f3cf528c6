/** Characters in the three classes the tokenizer distinguishes, and small text helpers. */
module Characters {

  /** A code point tagged with its class. White space wins over the other classes, as
      the tokenizer tests it first. */
  datatype Character = Space(code: nat) | Single(code: nat) | Word(code: nat)

  type Text = seq<Character>

  const NEWLINE := Space(10)
  const BLANK_LINE: Text := [NEWLINE, NEWLINE]

  predicate AllSpace(s: Text) {
    forall i | 0 <= i < |s| :: s[i].Space?
  }

  /** The characters of s that are not white space, in order. */
  function Ink(s: Text): Text {
    if s == [] then []
    else (if s[0].Space? then [] else [s[0]]) + Ink(s[1..])
  }

  lemma {:induction false} InkAppend(a: Text, b: Text)
    ensures Ink(a + b) == Ink(a) + Ink(b)
  {
    if a == [] {
      assert a + b == b;
    } else {
      assert (a + b)[1..] == a[1..] + b;
      InkAppend(a[1..], b);
    }
  }

  lemma {:induction false} InkOfSpace(s: Text)
    requires AllSpace(s)
    ensures Ink(s) == []
  {
    if s != [] {
      InkOfSpace(s[1..]);
    }
  }

  function Flatten<T>(parts: seq<seq<T>>): seq<T> {
    if parts == [] then [] else parts[0] + Flatten(parts[1..])
  }

  lemma {:induction false} FlattenAppend<T>(a: seq<seq<T>>, b: seq<seq<T>>)
    ensures Flatten(a + b) == Flatten(a) + Flatten(b)
  {
    if a == [] {
      assert a + b == b;
    } else {
      assert (a + b)[1..] == a[1..] + b;
      FlattenAppend(a[1..], b);
    }
  }

  function DropLeadingSpace(s: Text): Text {
    if s != [] && s[0].Space? then DropLeadingSpace(s[1..]) else s
  }

  function DropTrailingSpace(s: Text): Text {
    if s != [] && s[|s| - 1].Space? then DropTrailingSpace(s[..|s| - 1]) else s
  }

  function Strip(s: Text): Text {
    DropTrailingSpace(DropLeadingSpace(s))
  }

  lemma {:induction false} DropLeadingSpaceInk(s: Text)
    ensures Ink(DropLeadingSpace(s)) == Ink(s)
    ensures |DropLeadingSpace(s)| <= |s|
  {
    if s != [] && s[0].Space? {
      DropLeadingSpaceInk(s[1..]);
    }
  }

  lemma {:induction false} DropTrailingSpaceInk(s: Text)
    ensures Ink(DropTrailingSpace(s)) == Ink(s)
    ensures DropTrailingSpace(s) <= s
    ensures AllSpace(s[|DropTrailingSpace(s)|..])
  {
    if s != [] && s[|s| - 1].Space? {
      DropTrailingSpaceInk(s[..|s| - 1]);
      assert s == s[..|s| - 1] + [s[|s| - 1]];
      InkAppend(s[..|s| - 1], [s[|s| - 1]]);
    }
  }

  lemma {:induction false} StripInk(s: Text)
    ensures Ink(Strip(s)) == Ink(s)
  {
    DropLeadingSpaceInk(s);
    DropTrailingSpaceInk(DropLeadingSpace(s));
  }
}

/** The deterministic tokenizer: runs of word characters are cut every four characters,
    other visible characters are one token each, and white space separates. */
module Tokenizer {
  import opened Characters

  const RUN: nat := 4

  /** Tokens that begin in s, when the token open before s can still take `room`
      more word characters. */
  function Tokens(room: nat, s: Text): nat
    decreases s
  {
    if s == [] then 0
    else match s[0]
      case Space(_) => Tokens(0, s[1..])
      case Single(_) => 1 + Tokens(0, s[1..])
      case Word(_) => if room > 0 then Tokens(room - 1, s[1..]) else 1 + Tokens(RUN - 1, s[1..])
  }

  /** Room left in the open token after reading s. */
  function RoomAfter(room: nat, s: Text): (r: nat)
    ensures room < RUN ==> r < RUN
    decreases s
  {
    if s == [] then room
    else match s[0]
      case Space(_) => RoomAfter(0, s[1..])
      case Single(_) => RoomAfter(0, s[1..])
      case Word(_) => RoomAfter(if room > 0 then room - 1 else RUN - 1, s[1..])
  }

  function Count(s: Text): nat {
    Tokens(0, s)
  }

  /** Character i opens a token. */
  predicate StartsToken(s: Text, i: nat)
    requires i < |s|
  {
    s[i].Single? || (s[i].Word? && RoomAfter(0, s[..i]) == 0)
  }

  lemma {:induction false} TokensAppend(room: nat, a: Text, b: Text)
    ensures Tokens(room, a + b) == Tokens(room, a) + Tokens(RoomAfter(room, a), b)
    ensures RoomAfter(room, a + b) == RoomAfter(RoomAfter(room, a), b)
    decreases a
  {
    if a == [] {
      assert a + b == b;
    } else {
      assert (a + b)[1..] == a[1..] + b;
      match a[0]
      case Space(_) => TokensAppend(0, a[1..], b);
      case Single(_) => TokensAppend(0, a[1..], b);
      case Word(_) => TokensAppend(if room > 0 then room - 1 else RUN - 1, a[1..], b);
    }
  }

  /** More room in the open token saves at most one token, and never costs one. */
  lemma {:induction false} RoomSavesAtMostOne(less: nat, more: nat, s: Text)
    requires less <= more < RUN
    ensures Tokens(more, s) <= Tokens(less, s) <= Tokens(more, s) + 1
    decreases s
  {
    if s != [] && s[0].Word? {
      if less > 0 {
        RoomSavesAtMostOne(less - 1, more - 1, s[1..]);
      } else if more > 0 {
        RoomSavesAtMostOne(more - 1, RUN - 1, s[1..]);
      }
    }
  }

  /** A token left open was counted. */
  lemma {:induction false} OpenTokenIsCounted(room: nat, s: Text)
    requires room < RUN
    ensures RoomAfter(room, s) > 0 ==> room > 0 || Tokens(room, s) > 0
    decreases s
  {
    if s != [] {
      match s[0]
      case Space(_) => OpenTokenIsCounted(0, s[1..]);
      case Single(_) => OpenTokenIsCounted(0, s[1..]);
      case Word(_) => OpenTokenIsCounted(if room > 0 then room - 1 else RUN - 1, s[1..]);
    }
  }

  /** Counts are monotone in prefix and suffix, and subadditive. */
  lemma {:induction false} CountAppend(a: Text, b: Text)
    ensures Count(a) <= Count(a + b)
    ensures Count(b) <= Count(a + b)
    ensures Count(a + b) <= Count(a) + Count(b)
  {
    TokensAppend(0, a, b);
    RoomSavesAtMostOne(0, RoomAfter(0, a), b);
    OpenTokenIsCounted(0, a);
  }

  lemma {:induction false} CountExtend(a: Text, c: Character)
    ensures Count(a) <= Count(a + [c]) <= Count(a) + 1
    ensures Count(a + [c]) == Count(a) + 1 <==> StartsToken(a + [c], |a|)
  {
    TokensAppend(0, a, [c]);
    assert (a + [c])[..|a|] == a;
  }

  lemma {:induction false} CountPrefix(s: Text, i: nat, j: nat)
    requires i <= j <= |s|
    ensures Count(s[..i]) <= Count(s[..j]) <= Count(s)
  {
    CountAppend(s[..i], s[i..j]);
    assert s[..j] == s[..i] + s[i..j];
    CountAppend(s[..j], s[j..]);
    assert s == s[..j] + s[j..];
  }

  /** Counts add up across a cut made where a token starts. */
  lemma {:induction false} CutAtTokenStart(s: Text, i: nat)
    requires i < |s| && StartsToken(s, i)
    ensures Count(s) == Count(s[..i]) + Count(s[i..])
  {
    assert s == s[..i] + s[i..];
    TokensAppend(0, s[..i], s[i..]);
  }

  lemma {:induction false} CountOfSpace(room: nat, s: Text)
    requires AllSpace(s)
    ensures Tokens(room, s) == 0
    ensures s != [] ==> RoomAfter(room, s) == 0
  {
    if s != [] {
      CountOfSpace(0, s[1..]);
    }
  }

  /** Counts add up across white space. */
  lemma {:induction false} CountAcrossSpace(a: Text, gap: Text, b: Text)
    requires gap != [] && AllSpace(gap)
    ensures Count(a + gap + b) == Count(a) + Count(b)
  {
    TokensAppend(0, a, gap);
    CountOfSpace(RoomAfter(0, a), gap);
    TokensAppend(0, a + gap, b);
  }

  lemma {:induction false} NoTokensIsSpace(s: Text)
    ensures Count(s) == 0 <==> AllSpace(s)
  {
    if s != [] {
      assert s == [s[0]] + s[1..];
      match s[0]
      case Space(_) => NoTokensIsSpace(s[1..]);
      case Single(_) => assert !AllSpace(s);
      case Word(_) => assert !AllSpace(s);
    }
  }

  /** The longest prefix of at most `limit` tokens (0 when even one character is too much). */
  function LongestFit(s: Text, limit: int): (n: nat)
    ensures n <= |s|
  {
    if s == [] then 0
    else if Count(s) <= limit then |s|
    else LongestFit(s[..|s| - 1], limit)
  }

  lemma {:induction false} LongestFitMaximal(s: Text, limit: int)
    ensures var n := LongestFit(s, limit);
      && (n > 0 ==> Count(s[..n]) <= limit)
      && (forall m | n < m <= |s| :: Count(s[..m]) > limit)
  {
    assert s[..|s|] == s;
    if s != [] && Count(s) > limit {
      var rest := s[..|s| - 1];
      LongestFitMaximal(rest, limit);
      assert forall m | 0 <= m <= |rest| :: rest[..m] == s[..m];
    }
  }

  lemma {:induction false} LongestFitUnique(s: Text, limit: int, n: nat)
    requires n <= |s|
    requires n > 0 ==> Count(s[..n]) <= limit
    requires n < |s| ==> Count(s[..n + 1]) > limit
    ensures LongestFit(s, limit) == n
  {
    LongestFitMaximal(s, limit);
    var m := LongestFit(s, limit);
    if n < m {
      CountPrefix(s, n + 1, m);
    }
  }

  /** Cutting at a longest fitting prefix fills it completely and splits the count exactly. */
  lemma {:induction false} LongestFitSplits(s: Text, limit: nat)
    ensures var n := LongestFit(s, limit);
      && Count(s) == Count(s[..n]) + Count(s[n..])
      && (n < |s| ==> StartsToken(s, n) && Count(s[..n]) == limit)
  {
    var n := LongestFit(s, limit);
    LongestFitMaximal(s, limit);
    if n == |s| {
      assert s[..n] == s && s[n..] == [];
    } else {
      assert s[..n + 1] == s[..n] + [s[n]];
      CountExtend(s[..n], s[n]);
      assert s[..n + 1][..n] == s[..n];
      CutAtTokenStart(s, n);
    }
  }

  datatype Span = Span(start: nat, end: nat)

  predicate WordsBetween(s: Text, i: nat, j: nat)
    requires i <= j <= |s|
  {
    forall k | i <= k < j :: s[k].Word?
  }

  /** One token: a lone visible character, or one to four word characters. */
  predicate IsToken(s: Text, span: Span) {
    && span.start < span.end <= |s|
    && span.end - span.start <= RUN
    && ((s[span.start].Single? && span.end == span.start + 1) || WordsBetween(s, span.start, span.end))
  }

  predicate InSome(i: nat, spans: seq<Span>) {
    exists k | 0 <= k < |spans| :: spans[k].start <= i < spans[k].end
  }

  /** The spans are ordered, disjoint tokens that cover the visible characters of
      s[..end] and nothing else, token k starting where the longest prefix of k tokens ends. */
  ghost predicate Tokenization(s: Text, end: nat, spans: seq<Span>)
    requires end <= |s|
  {
    && |spans| == Count(s[..end])
    && (forall k | 0 <= k < |spans| :: IsToken(s, spans[k]))
    && (forall k | 0 <= k < |spans| :: spans[k].end <= end)
    && (forall k | 0 < k < |spans| :: spans[k - 1].end <= spans[k].start)
    && (forall i | 0 <= i < end && !s[i].Space? :: InSome(i, spans))
    && (forall k | 0 <= k < |spans| :: spans[k].start == LongestFit(s, k))
  }

  lemma {:induction false} OneToken(room: nat, run: Text)
    requires 1 <= |run| <= RUN
    requires (|run| == 1 && run[0].Single?) || WordsBetween(run, 0, |run|)
    requires room == 0 || run[0].Single?
    ensures Tokens(room, run) == 1
    ensures RoomAfter(room, run) == if run[0].Single? then 0 else RUN - |run|
  {
    if run[0].Word? {
      WordsInRoom(RUN - 1, run[1..]);
    }
  }

  lemma {:induction false} WordsInRoom(room: nat, run: Text)
    requires |run| <= room && WordsBetween(run, 0, |run|)
    ensures Tokens(room, run) == 0 && RoomAfter(room, run) == room - |run|
  {
    if run != [] {
      WordsInRoom(room - 1, run[1..]);
    }
  }

  lemma {:induction false} TokenCounts(s: Text, i: nat, j: nat)
    requires i < j <= |s| && IsToken(s, Span(i, j))
    requires s[i].Single? || RoomAfter(0, s[..i]) == 0
    ensures Count(s[..j]) == Count(s[..i]) + 1
    ensures LongestFit(s, Count(s[..i])) == i
    ensures j - i == RUN || s[i].Single? ==> RoomAfter(0, s[..j]) == 0
  {
    assert s[..j] == s[..i] + s[i..j];
    TokensAppend(0, s[..i], s[i..j]);
    OneToken(RoomAfter(0, s[..i]), s[i..j]);
    assert s[..i + 1] == s[..i] + [s[i]];
    TokensAppend(0, s[..i], [s[i]]);
    LongestFitUnique(s, Count(s[..i]), i);
  }

  lemma {:induction false} CoverMore(s: Text, i: nat, j: nat, spans: seq<Span>)
    requires i <= j <= |s|
    requires forall q | 0 <= q < i && !s[q].Space? :: InSome(q, spans)
    ensures forall q | 0 <= q < j && !s[q].Space? :: InSome(q, spans + [Span(i, j)])
  {
    var all := spans + [Span(i, j)];
    forall q | 0 <= q < j && !s[q].Space?
      ensures InSome(q, all)
    {
      if q < i {
        assert InSome(q, spans);
        var k :| 0 <= k < |spans| && spans[k].start <= q < spans[k].end;
        assert all[k] == spans[k];
      } else {
        assert all[|spans|] == Span(i, j);
      }
    }
  }

  /** One more token, right after the part already tokenized. */
  lemma {:induction false} AddToken(s: Text, i: nat, j: nat, spans: seq<Span>)
    requires i < j <= |s| && IsToken(s, Span(i, j))
    requires Tokenization(s, i, spans)
    requires s[i].Single? || RoomAfter(0, s[..i]) == 0
    ensures Tokenization(s, j, spans + [Span(i, j)])
    ensures j - i == RUN || s[i].Single? ==> RoomAfter(0, s[..j]) == 0
  {
    TokenCounts(s, i, j);
    CoverMore(s, i, j, spans);
    var all := spans + [Span(i, j)];
    forall k | 0 <= k < |all|
      ensures IsToken(s, all[k]) && all[k].end <= j && all[k].start == LongestFit(s, k)
    {
      assert k < |spans| ==> all[k] == spans[k];
    }
  }

  lemma {:induction false} AddSpace(s: Text, i: nat, spans: seq<Span>)
    requires i < |s| && s[i].Space?
    requires Tokenization(s, i, spans)
    ensures Tokenization(s, i + 1, spans) && RoomAfter(0, s[..i + 1]) == 0
  {
    assert s[..i + 1] == s[..i] + [s[i]];
    TokensAppend(0, s[..i], [s[i]]);
  }

  /** Cuts the word run [runStart, runEnd) into tokens of at most four characters. */
  method AppendRun(value: Text, spans: seq<Span>, runStart: nat, runEnd: nat) returns (extended: seq<Span>)
    requires runStart < runEnd <= |value|
    requires Tokenization(value, runStart, spans) && RoomAfter(0, value[..runStart]) == 0
    requires WordsBetween(value, runStart, runEnd)
    ensures Tokenization(value, runEnd, extended)
  {
    extended := spans;
    var offset := runStart;
    while offset < runEnd
      invariant runStart <= offset
      invariant offset < runEnd ==> RoomAfter(0, value[..offset]) == 0
      invariant Tokenization(value, if offset < runEnd then offset else runEnd, extended)
    {
      var end := if runEnd < offset + RUN then runEnd else offset + RUN;
      AddToken(value, offset, end, extended);
      extended := extended + [Span(offset, end)];
      offset := offset + RUN;
    }
  }

  /** One character that is no word, after the run before it was closed. */
  method AppendOne(value: Text, spans: seq<Span>, index: nat) returns (extended: seq<Span>)
    requires index < |value| && !value[index].Word?
    requires Tokenization(value, index, spans)
    ensures Tokenization(value, index + 1, extended) && RoomAfter(0, value[..index + 1]) == 0
  {
    extended := spans;
    if value[index].Space? {
      AddSpace(value, index, spans);
    } else {
      AddToken(value, index, index + 1, spans);
      extended := extended + [Span(index, index + 1)];
    }
  }

  method Spans(value: Text) returns (spans: seq<Span>)
    ensures Tokenization(value, |value|, spans)
  {
    spans := [];
    var start, inRun := 0, false;
    for index := 0 to |value|
      invariant start <= index && (inRun ==> start < index && WordsBetween(value, start, index))
      invariant !inRun ==> Tokenization(value, index, spans) && RoomAfter(0, value[..index]) == 0
      invariant inRun ==> Tokenization(value, start, spans) && RoomAfter(0, value[..start]) == 0
    {
      if value[index].Word? {
        if !inRun {
          start, inRun := index, true;
        }
      } else {
        if inRun {
          spans := AppendRun(value, spans, start, index);
          inRun := false;
        }
        spans := AppendOne(value, spans, index);
      }
    }
    if inRun {
      spans := AppendRun(value, spans, start, |value|);
    }
  }

  /** The last `limit` tokens of s and everything after they start. */
  function TailTokens(s: Text, limit: nat): Text {
    if s == [] || limit == 0 then []
    else if Count(s) == 0 then s[if |s| > limit * 4 then |s| - limit * 4 else 0..]
    else s[LongestFit(s, if Count(s) > limit then Count(s) - limit else 0)..]
  }

  /** Tokens in the tail of at most `limit` tokens. */
  function Carry(s: Text, limit: nat): nat {
    if Count(s) < limit then Count(s) else limit
  }

  lemma {:induction false} TailCount(s: Text, limit: nat)
    ensures Count(TailTokens(s, limit)) == Carry(s, limit)
    ensures |TailTokens(s, limit)| <= |s| && TailTokens(s, limit) == s[|s| - |TailTokens(s, limit)|..]
  {
    if s != [] && limit > 0 {
      if Count(s) == 0 {
        NoTokensIsSpace(s);
        NoTokensIsSpace(TailTokens(s, limit));
      } else {
        var k := if Count(s) > limit then Count(s) - limit else 0;
        LongestFitSplits(s, k);
        assert s[..|s|] == s;
        assert LongestFit(s, k) < |s|;
      }
    }
  }

  /** What cutting at the spans gives. */
  function CutTail(value: Text, spans: seq<Span>, limit: nat): Text
    requires limit > 0 && forall k | 0 <= k < |spans| :: 0 <= spans[k].start <= |value|
  {
    if spans != [] then value[spans[if |spans| > limit then |spans| - limit else 0].start..]
    else value[if |value| > limit * 4 then |value| - limit * 4 else 0..]
  }

  lemma {:induction false} CutTailIs(value: Text, spans: seq<Span>, limit: nat)
    requires |spans| == Count(value) && forall k | 0 <= k < |spans| :: spans[k].start == LongestFit(value, k)
    requires value != [] && limit > 0 && forall k | 0 <= k < |spans| :: spans[k].start <= |value|
    ensures CutTail(value, spans, limit) == TailTokens(value, limit)
  {
  }

  method TailOf(value: Text, limit: nat) returns (tail: Text)
    ensures tail == TailTokens(value, limit)
  {
    if value == [] || limit == 0 {
      return [];
    }
    var spans := Spans(value);
    assert value[..|value|] == value;
    CutTailIs(value, spans, limit);
    tail := CutTail(value, spans, limit);
  }
}
