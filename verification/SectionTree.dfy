/** Outlines: headings nested by level, everything else under the latest heading. */
module SectionTree {
  import opened Options

  /** A block of text: a heading of some level, or content. */
  datatype Tree<B> = Tree(heading: Option<nat>, block: B, kids: seq<Tree<B>>)

  function Preorder<B>(f: seq<Tree<B>>): seq<(Option<nat>, B)> {
    if f == [] then []
    else [(f[0].heading, f[0].block)] + Preorder(f[0].kids) + Preorder(f[1..])
  }

  lemma {:induction false} PreorderAppend<B>(a: seq<Tree<B>>, b: seq<Tree<B>>)
    ensures Preorder(a + b) == Preorder(a) + Preorder(b)
  {
    if a == [] {
      assert a + b == b;
    } else {
      assert (a + b)[1..] == a[1..] + b;
      PreorderAppend(a[1..], b);
    }
  }

  /** The children of a heading of the given level: content first, then headings of deeper
      levels, none deeper than the one before it. */
  predicate Nested<B>(f: seq<Tree<B>>, level: int) {
    f == [] || (
      && Nested(f[1..], level)
      && match f[0].heading
         case None => f[0].kids == []
         case Some(l) => l > level && Nested(f[0].kids, l) && (f[1..] == [] || AtMost(f[1], l)))
  }

  predicate AtMost<B>(t: Tree<B>, level: int) {
    t.heading.Some? && t.heading.value <= level
  }

  /** What may follow the subtree of a heading of the given level. */
  predicate Closes<B>(rest: seq<(Option<nat>, B)>, level: int) {
    rest == [] || (rest[0].0.Some? && rest[0].0.value <= level)
  }

  lemma {:induction false} FirstOfPreorder<B>(f: seq<Tree<B>>)
    requires f != []
    ensures Preorder(f) != [] && Preorder(f)[0] == (f[0].heading, f[0].block)
    ensures Preorder(f)[1..] == Preorder(f[0].kids) + Preorder(f[1..])
  {
    var head := [(f[0].heading, f[0].block)];
    assert Preorder(f) == head + (Preorder(f[0].kids) + Preorder(f[1..]));
  }

  lemma {:induction false} AfterHeadingCloses<B>(f: seq<Tree<B>>, rest: seq<(Option<nat>, B)>, level: int)
    requires f != [] && Nested(f, level) && f[0].heading.Some? && Closes(rest, level)
    ensures Closes(Preorder(f[1..]) + rest, f[0].heading.value)
  {
    if f[1..] != [] {
      FirstOfPreorder(f[1..]);
    }
  }

  /** Whether a walk has come to what closes it tells whether the forest is empty. */
  lemma {:induction false} EmptyIffCloses<B>(f: seq<Tree<B>>, x: seq<(Option<nat>, B)>, level: int)
    requires Nested(f, level) && Closes(x, level)
    ensures f == [] <==> Closes(Preorder(f) + x, level)
  {
    if f == [] {
      assert Preorder(f) + x == x;
    } else {
      FirstOfPreorder(f);
      assert (Preorder(f) + x)[0] == Preorder(f)[0];
    }
  }

  lemma {:induction false} WalkFirst<B>(f: seq<Tree<B>>, x: seq<(Option<nat>, B)>)
    requires f != []
    ensures var walk := Preorder(f) + x;
      walk != [] && walk[0] == (f[0].heading, f[0].block)
      && walk[1..] == Preorder(f[0].kids) + (Preorder(f[1..]) + x)
  {
    FirstOfPreorder(f);
  }

  /** Two nested forests with the same walk, up to what closes them, are the same. */
  lemma {:induction false} SameForest<B>(f: seq<Tree<B>>, x: seq<(Option<nat>, B)>, g: seq<Tree<B>>, y: seq<(Option<nat>, B)>,
                                         level: int)
    requires Nested(f, level) && Nested(g, level) && Closes(x, level) && Closes(y, level)
    requires Preorder(f) + x == Preorder(g) + y
    ensures f == g && x == y
    decreases f
  {
    EmptyIffCloses(f, x, level);
    EmptyIffCloses(g, y, level);
    if f == [] {
      assert [] + x == x && [] + y == y;
    } else {
      WalkFirst(f, x);
      WalkFirst(g, y);
      var fx, gy := Preorder(f[1..]) + x, Preorder(g[1..]) + y;
      if f[0].heading.Some? {
        AfterHeadingCloses(f, x, level);
        AfterHeadingCloses(g, y, level);
        SameForest(f[0].kids, fx, g[0].kids, gy, f[0].heading.value);
      } else {
        assert [] + fx == fx && [] + gy == gy;
      }
      SameForest(f[1..], x, g[1..], y, level);
      assert f == [f[0]] + f[1..] && g == [g[0]] + g[1..];
    }
  }

  /** A nested outline is determined by its walk. */
  lemma {:induction false} OutlineIsUnique<B>(f: seq<Tree<B>>, g: seq<Tree<B>>)
    requires Nested(f, -1) && Nested(g, -1) && Preorder(f) == Preorder(g)
    ensures f == g
  {
    assert Preorder(f) + [] == Preorder(f) && Preorder(g) + [] == Preorder(g);
    SameForest(f, [], g, [], -1);
  }

  // ---- Building from the stack of open headings ----

  datatype Open<B> = Open(level: nat, block: B, kids: seq<Tree<B>>)

  /** The outline so far: what is under the root, and the open headings, each inside the
      one before it. */
  datatype Spine<B> = Spine(root: seq<Tree<B>>, open: seq<Open<B>>)
  {
    function Top(): seq<Tree<B>> {
      if open == [] then root else open[|open| - 1].kids
    }

    function WithTop(kids: seq<Tree<B>>): Spine<B> {
      if open == [] then Spine(kids, [])
      else Spine(root, open[..|open| - 1] + [open[|open| - 1].(kids := kids)])
    }

    function Add(t: Tree<B>): Spine<B> {
      WithTop(Top() + [t])
    }

    /** The innermost open heading, closed and put in its place. */
    function Pop(): Spine<B>
      requires open != []
    {
      var o := open[|open| - 1];
      Spine(root, open[..|open| - 1]).Add(Tree(Some(o.level), o.block, o.kids))
    }

    function Push(level: nat, block: B): Spine<B> {
      Spine(root, open + [Open(level, block, [])])
    }

    /** Headings as deep as the level or deeper are closed. */
    function PopTo(level: nat): Spine<B>
      decreases |open|
    {
      if open != [] && open[|open| - 1].level >= level then Pop().PopTo(level) else this
    }

    function Closed(): seq<Tree<B>>
      decreases |open|
    {
      if open == [] then root else Pop().Closed()
    }

    function Walk(): seq<(Option<nat>, B)> {
      Preorder(Closed())
    }
  }

  lemma {:induction false} KidAdded<B>(heading: Option<nat>, block: B, kids: seq<Tree<B>>, t: Tree<B>)
    ensures Preorder([Tree(heading, block, kids + [t])]) == Preorder([Tree(heading, block, kids)]) + Preorder([t])
  {
    PreorderAppend(kids, [t]);
    var a, b := Tree(heading, block, kids + [t]), Tree(heading, block, kids);
    assert [a][1..] == [] && [b][1..] == [];
  }

  /** Whatever is added last is last in the walk. */
  lemma {:induction false} AddWalk<B>(s: Spine<B>, t: Tree<B>)
    ensures s.Add(t).Walk() == s.Walk() + Preorder([t])
    decreases |s.open|
  {
    if s.open == [] {
      PreorderAppend(s.root, [t]);
    } else {
      var k := |s.open| - 1;
      var o := s.open[k];
      var outer := Spine(s.root, s.open[..k]);
      var before, after := Tree(Some(o.level), o.block, o.kids), Tree(Some(o.level), o.block, o.kids + [t]);
      var added := s.Add(t);
      assert added.open[k] == o.(kids := o.kids + [t]) && added.open[..k] == s.open[..k];
      assert added.Pop() == outer.Add(after) && s.Pop() == outer.Add(before);
      AddWalk(outer, before);
      AddWalk(outer, after);
      KidAdded(Some(o.level), o.block, o.kids, t);
    }
  }

  lemma {:induction false} PopToWalk<B>(s: Spine<B>, level: nat)
    ensures s.PopTo(level).Walk() == s.Walk()
    decreases |s.open|
  {
    if s.open != [] && s.open[|s.open| - 1].level >= level {
      PopToWalk(s.Pop(), level);
    }
  }

  lemma {:induction false} PushWalk<B>(s: Spine<B>, level: nat, block: B)
    ensures s.Push(level, block).Walk() == s.Walk() + [(Some(level), block)]
  {
    var t := Tree(Some(level), block, []);
    var pushed := s.Push(level, block);
    assert pushed.open[..|s.open|] == s.open;
    assert pushed.Pop() == s.Add(t);
    AddWalk(s, t);
    assert [t][1..] == [];
  }

  /** The last tree added to the top is replaced. */
  lemma {:induction false} ReplaceWalk<B>(s: Spine<B>, block: B)
    requires s.Top() != [] && s.Top()[|s.Top()| - 1].heading.None? && s.Top()[|s.Top()| - 1].kids == []
    ensures var k := |s.Top()| - 1; var old' := s.Top()[k];
      && s.Walk() != [] && s.Walk()[|s.Walk()| - 1] == (None, old'.block)
      && s.WithTop(s.Top()[..k] + [Tree(None, block, [])]).Walk() == s.Walk()[..|s.Walk()| - 1] + [(None, block)]
  {
    var k := |s.Top()| - 1;
    var last, fresh' := s.Top()[k], Tree(None, block, []);
    var rest := s.WithTop(s.Top()[..k]);
    assert s.Top()[..k] + [last] == s.Top();
    TopOf(s, s.Top()[..k]);
    assert rest.Add(last) == s;
    assert rest.Add(fresh') == s.WithTop(s.Top()[..k] + [fresh']);
    AddWalk(rest, last);
    AddWalk(rest, fresh');
    assert [last][1..] == [] && [fresh'][1..] == [];
  }

  lemma {:induction false} TopOf<B>(s: Spine<B>, kids: seq<Tree<B>>)
    ensures s.WithTop(kids).Top() == kids
    ensures forall more :: s.WithTop(kids).WithTop(more) == s.WithTop(more)
    ensures s.WithTop(s.Top()) == s
  {
    if s.open != [] {
      var k := |s.open| - 1;
      assert s.open == s.open[..k] + [s.open[k]];
      assert s.WithTop(kids).open[..k] == s.open[..k];
    }
  }

  // ---- What is built is nested ----

  predicate Grown<B>(t: Tree<B>, level: int) {
    match t.heading
    case None => t.kids == []
    case Some(l) => l > level && Nested(t.kids, l)
  }

  /** The tree may come after these. */
  predicate Follows<B>(f: seq<Tree<B>>, heading: Option<nat>) {
    f == [] || f[|f| - 1].heading.None? || (heading.Some? && heading.value <= f[|f| - 1].heading.value)
  }

  lemma {:induction false} NestedSnoc<B>(f: seq<Tree<B>>, t: Tree<B>, level: int)
    requires Nested(f, level) && Grown(t, level) && Follows(f, t.heading)
    ensures Nested(f + [t], level)
  {
    if f == [] {
      assert [t][1..] == [] && f + [t] == [t];
    } else {
      assert (f + [t])[1..] == f[1..] + [t];
      NestedSnoc(f[1..], t, level);
    }
  }

  function LevelBelow<B>(s: Spine<B>): int {
    if s.open == [] then -1 else s.open[|s.open| - 1].level
  }

  /** Every open heading may be closed into the one around it. */
  predicate Upright<B>(s: Spine<B>)
    decreases |s.open|
  {
    Nested(s.Top(), LevelBelow(s)) && (s.open != [] ==>
      var k := |s.open| - 1;
      var outer := Spine(s.root, s.open[..k]);
      Upright(outer) && s.open[k].level > LevelBelow(outer) && Follows(outer.Top(), Some(s.open[k].level)))
  }

  lemma {:induction false} AddUpright<B>(s: Spine<B>, t: Tree<B>)
    requires Upright(s) && Grown(t, LevelBelow(s)) && Follows(s.Top(), t.heading)
    ensures Upright(s.Add(t)) && LevelBelow(s.Add(t)) == LevelBelow(s) && s.Add(t).Top() == s.Top() + [t]
  {
    NestedSnoc(s.Top(), t, LevelBelow(s));
    TopOf(s, s.Top() + [t]);
    if s.open != [] {
      assert s.Add(t).open[..|s.open| - 1] == s.open[..|s.open| - 1];
    }
  }

  lemma {:induction false} PopUpright<B>(s: Spine<B>)
    requires Upright(s) && s.open != []
    ensures Upright(s.Pop()) && LevelBelow(s.Pop()) < LevelBelow(s)
    ensures s.Pop().Top() != [] && s.Pop().Top()[|s.Pop().Top()| - 1].heading == Some(LevelBelow(s))
  {
    var o := s.open[|s.open| - 1];
    AddUpright(Spine(s.root, s.open[..|s.open| - 1]), Tree(Some(o.level), o.block, o.kids));
  }

  /** After closing, a heading of the level may be opened. */
  lemma {:induction false} PopToUpright<B>(s: Spine<B>, level: nat)
    requires Upright(s) && Follows(s.Top(), Some(level))
    ensures var p := s.PopTo(level); Upright(p) && LevelBelow(p) < level && Follows(p.Top(), Some(level))
    decreases |s.open|
  {
    if s.open != [] && s.open[|s.open| - 1].level >= level {
      PopUpright(s);
      PopToUpright(s.Pop(), level);
    }
  }

  lemma {:induction false} PushUpright<B>(s: Spine<B>, level: nat, block: B)
    requires Upright(s) && LevelBelow(s) < level && Follows(s.Top(), Some(level))
    ensures Upright(s.Push(level, block)) && s.Push(level, block).Top() == []
  {
    assert s.Push(level, block).open[..|s.open|] == s.open;
  }

  lemma {:induction false} ClosedIsNested<B>(s: Spine<B>)
    requires Upright(s)
    ensures Nested(s.Closed(), -1)
    decreases |s.open|
  {
    if s.open != [] {
      PopUpright(s);
      ClosedIsNested(s.Pop());
    }
  }

  // ---- Each heading's parent ----

  /** The nearest earlier heading of smaller level. */
  function Nearest<B>(walk: seq<(Option<nat>, B)>, level: nat): Option<(nat, B)> {
    if walk == [] then None
    else
      var k := |walk| - 1;
      if walk[k].0.Some? && walk[k].0.value < level then Some((walk[k].0.value, walk[k].1))
      else Nearest(walk[..k], level)
  }

  /** The headings left open by a walk. */
  function OpenAfter<B>(walk: seq<(Option<nat>, B)>): seq<(nat, B)> {
    if walk == [] then []
    else
      var k := |walk| - 1;
      match walk[k].0
      case None => OpenAfter(walk[..k])
      case Some(l) => Below(OpenAfter(walk[..k]), l) + [(l, walk[k].1)]
  }

  function Below<B>(open: seq<(nat, B)>, level: nat): seq<(nat, B)> {
    if open != [] && open[|open| - 1].0 >= level then Below(open[..|open| - 1], level) else open
  }

  lemma {:induction false} BelowTwice<B>(open: seq<(nat, B)>, a: nat, b: nat)
    requires b <= a
    ensures Below(Below(open, a), b) == Below(open, b)
  {
    if open != [] && open[|open| - 1].0 >= a {
      BelowTwice(open[..|open| - 1], a, b);
    }
  }

  /** Popping the stack leaves the nearest earlier heading of smaller level on top. */
  lemma {:induction false} PopFindsNearest<B>(walk: seq<(Option<nat>, B)>, level: nat)
    ensures var left := Below(OpenAfter(walk), level);
      Nearest(walk, level) == if left == [] then None else Some(left[|left| - 1])
  {
    if walk != [] {
      var k := |walk| - 1;
      PopFindsNearest(walk[..k], level);
      if walk[k].0.Some? {
        var l := walk[k].0.value;
        var before := OpenAfter(walk[..k]);
        if l >= level {
          assert OpenAfter(walk)[..|OpenAfter(walk)| - 1] == Below(before, l);
          BelowTwice(before, l, level);
        }
      }
    }
  }

  function Opened<B>(s: Spine<B>): seq<(nat, B)> {
    seq(|s.open|, i requires 0 <= i < |s.open| => (s.open[i].level, s.open[i].block))
  }

  lemma {:induction false} PopToBelow<B>(s: Spine<B>, level: nat)
    ensures Opened(s.PopTo(level)) == Below(Opened(s), level)
    decreases |s.open|
  {
    if s.open != [] && s.open[|s.open| - 1].level >= level {
      assert Opened(s.Pop()) == Opened(s)[..|s.open| - 1];
      PopToBelow(s.Pop(), level);
    }
  }
}
