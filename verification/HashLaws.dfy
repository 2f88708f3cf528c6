/** Which nodes keep their content hash through a patch. */
module HashLaws {
  import opened Options
  import opened DocumentTree
  import opened PatchTree
  import opened PatchLaws

  function NodeOf(f: seq<Node>, id: string): Option<Node> {
    if f == [] then None
    else if f[0].id == id then Some(f[0])
    else OrElse(NodeOf(f[0].children, id), NodeOf(f[1..], id))
  }

  lemma {:induction false} NodeOfAppend(a: seq<Node>, b: seq<Node>, id: string)
    ensures NodeOf(a + b, id) == OrElse(NodeOf(a, id), NodeOf(b, id))
  {
    if a == [] {
      assert a + b == b;
    } else {
      assert (a + b)[1..] == a[1..] + b;
      NodeOfAppend(a[1..], b, id);
    }
  }

  lemma {:induction false} NodeOfIff(f: seq<Node>, id: string)
    ensures NodeOf(f, id).Some? <==> id in Ids(f)
    ensures NodeOf(f, id).Some? ==> NodeOf(f, id).value.id == id
  {
    if f != [] {
      NodeOfIff(f[0].children, id);
      NodeOfIff(f[1..], id);
    }
  }

  /** The node itself after the operation on it, its children aside. */
  function Own(m: map<string, Operation>, t: Node): Node {
    if t.id !in m then t
    else match m[t.id]
      case Replace(_, _, content) => t.(content := content)
      case Update(_, _, changes) => t.(attributes := Changed(t.attributes, changes))
      case _ => t
  }

  /** Still in the tree after the rewrite. */
  predicate Survives(f: seq<Node>, m: map<string, Operation>, id: string) {
    id in Ids(f) && !(id in m && m[id].Delete?) && !Buried(f, m, id)
  }

  function Rewritten(m: map<string, Operation>, t: Node): Node {
    Own(m, t).(children := Rewrite(t.children, m))
  }

  lemma {:induction false} NodeOfOutcome(op: Operation, m: map<string, Operation>, t: Node, id: string)
    requires t.id in m && m[t.id] == op && id !in Ids(op.Inserted())
    ensures NodeOf(Outcome(op, t), id)
         == if op.Delete? then None else if t.id == id then Some(Own(m, t)) else NodeOf(t.children, id)
  {
    assert NodeOf([], id) == None;
    assert [t][1..] == [];
    if op.Inserts() {
      NodeOfIff([op.node], id);
      assert [op.node, t] == [op.node] + [t] && [t, op.node] == [t] + [op.node];
      NodeOfAppend([op.node], [t], id);
      NodeOfAppend([t], [op.node], id);
    } else if !op.Delete? {
      var u := Outcome(op, t)[0];
      assert [u][1..] == [];
    }
  }

  predicate NotInserted(m: map<string, Operation>, id: string) {
    forall k | k in m :: m[k].target == k && id !in Ids(m[k].Inserted())
  }

  /** A surviving node is found after the rewrite as itself, with its own operation made
      and its children rewritten. */
  lemma {:induction false} NodeSurvives(f: seq<Node>, m: map<string, Operation>, id: string)
    requires Unique(f) && NotInserted(m, id)
    ensures id in Ids(f) <==> NodeOf(f, id).Some?
    ensures NodeOf(Rewrite(f, m), id)
         == if Survives(f, m, id) then Some(Rewritten(m, NodeOf(f, id).value)) else None
  {
    NodeOfIff(f, id);
    if f == [] {
    } else {
      var t := f[0].(children := Rewrite(f[0].children, m));
      NodeSurvives(f[0].children, m, id);
      NodeSurvives(f[1..], m, id);
      NodeOfIff(f[0].children, id);
      NodeOfIff(f[1..], id);
      BuriedHere(f, m, id);
      NodeOfAppend(Head(f, m), Rewrite(f[1..], m), id);
      if t.id in m {
        NodeOfOutcome(m[t.id], m, t, id);
      } else {
        assert [t][1..] == [];
        assert NodeOf([], id) == None;
      }
      if f[0].id == id {
        HeadNotBuried(f, m);
      }
    }
  }

  lemma {:induction false} HeadNotBuried(f: seq<Node>, m: map<string, Operation>)
    requires Unique(f) && f != []
    ensures !Buried(f, m, f[0].id)
  {
    if Buried(f, m, f[0].id) {
      var a :| a in m && m[a].Delete? && f[0].id in Below(f, a);
      BelowIds(f[0].children, a);
      BelowIds(f[1..], a);
    }
  }

  lemma {:induction false} NodeOfRehashed(f: seq<Node>, id: string)
    ensures NodeOf(Rehashed(f), id).Some? <==> NodeOf(f, id).Some?
    ensures NodeOf(f, id).Some? ==> NodeOf(Rehashed(f), id).value.hash == HashNode(NodeOf(f, id).value)
  {
    if f != [] {
      NodeOfRehashed(f[0].children, id);
      NodeOfRehashed(f[1..], id);
      assert Rehashed(f)[1..] == Rehashed(f[1..]);
    }
  }

  lemma {:induction false} NodeOfHashed(f: seq<Node>, id: string)
    requires Hashed(f) && id in Ids(f)
    ensures NodeOf(f, id).Some? && NodeOf(f, id).value.hash == HashNode(NodeOf(f, id).value)
    ensures Ids(NodeOf(f, id).value.children) <= Ids(f)
    ensures Unique(f) ==> Unique(NodeOf(f, id).value.children)
  {
    NodeOfIff(f, id);
    NodeOfIff(f[0].children, id);
    if f[0].id != id {
      if id in Ids(f[0].children) {
        NodeOfHashed(f[0].children, id);
      } else {
        NodeOfHashed(f[1..], id);
      }
    }
  }

  // ---- Child lists ----

  /** Some child of the node is deleted or has a sibling inserted beside it. */
  predicate ChildListEdited(children: seq<Node>, m: map<string, Operation>) {
    exists i | 0 <= i < |children| :: children[i].id in m && (m[children[i].id].Delete? || m[children[i].id].Inserts())
  }

  function TopIds(children: seq<Node>): set<string> {
    set i | 0 <= i < |children| :: children[i].id
  }

  lemma {:induction false} ChildListKept(children: seq<Node>, m: map<string, Operation>)
    requires !ChildListEdited(children, m)
    ensures ChildIds(Rewrite(children, m)) == ChildIds(children)
  {
    if children != [] {
      assert !ChildListEdited(children[1..], m);
      ChildListKept(children[1..], m);
      assert Head(children, m)[0].id == children[0].id && |Head(children, m)| == 1;
      assert ChildIds(children) == [children[0].id] + ChildIds(children[1..]);
    }
  }

  lemma {:induction false} TopIdsAppend(a: seq<Node>, b: seq<Node>)
    ensures TopIds(a + b) == TopIds(a) + TopIds(b)
  {
    forall x | x in TopIds(a) + TopIds(b)
      ensures x in TopIds(a + b)
    {
      if i :| 0 <= i < |a| && a[i].id == x {
        assert (a + b)[i].id == x;
      } else {
        var i :| 0 <= i < |b| && b[i].id == x;
        assert (a + b)[|a| + i].id == x;
      }
    }
  }

  lemma {:induction false} InsertedOnTop(children: seq<Node>, m: map<string, Operation>, i: nat)
    requires i < |children| && children[i].id in m && m[children[i].id].Inserts()
    ensures m[children[i].id].node.id in TopIds(Rewrite(children, m))
  {
    TopIdsAppend(Head(children, m), Rewrite(children[1..], m));
    if i == 0 {
      var op := m[children[0].id];
      assert Head(children, m)[if op.InsertBefore? then 0 else 1] == op.node;
    } else {
      InsertedOnTop(children[1..], m, i - 1);
    }
  }

  lemma {:induction false} TopInIds(f: seq<Node>, i: nat)
    requires i < |f|
    ensures f[i].id in Ids(f)
  {
    if i > 0 {
      TopInIds(f[1..], i - 1);
    }
  }

  lemma {:induction false} TopIdsInIds(f: seq<Node>)
    ensures TopIds(f) <= Ids(f)
  {
    forall x | x in TopIds(f)
      ensures x in Ids(f)
    {
      var i :| 0 <= i < |f| && f[i].id == x;
      TopInIds(f, i);
    }
  }

  lemma {:induction false} SameIdsSameTop(a: seq<Node>, b: seq<Node>)
    ensures ChildIds(a) == ChildIds(b) ==> TopIds(a) == TopIds(b)
  {
    if ChildIds(a) == ChildIds(b) {
      assert |ChildIds(a)| == |a| && |ChildIds(b)| == |b|;
      forall i | 0 <= i < |a|
        ensures a[i].id == b[i].id
      {
        assert ChildIds(a)[i] == a[i].id && ChildIds(b)[i] == b[i].id;
      }
    }
  }

  lemma {:induction false} InsertedRoot(op: Operation)
    requires op.Inserts()
    ensures op.node.id in Ids(op.Inserted())
  {
  }

  lemma {:induction false} DeletedNotOnTop(children: seq<Node>, base: set<string>, m: map<string, Operation>, id: string)
    requires FreshFor(base, m) && Ids(children) <= base
    requires id in base && id in m && m[id].Delete?
    ensures id !in TopIds(Rewrite(children, m))
  {
    if children != [] {
      DeletedNotOnTop(children[1..], base, m, id);
      TopIdsAppend(Head(children, m), Rewrite(children[1..], m));
      if children[0].id in m && m[children[0].id].Inserts() {
        InsertedRoot(m[children[0].id]);
      }
      assert forall i | 0 <= i < |Head(children, m)| :: Head(children, m)[i].id != id;
    }
  }

  lemma {:induction false} ChildListShows(children: seq<Node>, base: set<string>, m: map<string, Operation>)
    requires FreshFor(base, m) && Ids(children) <= base
    requires ChildListEdited(children, m)
    ensures TopIds(Rewrite(children, m)) != TopIds(children)
  {
    var i :| 0 <= i < |children| && children[i].id in m
             && (m[children[i].id].Delete? || m[children[i].id].Inserts());
    var id := children[i].id;
    TopIdsInIds(children);
    assert id in TopIds(children);
    if m[id].Delete? {
      DeletedNotOnTop(children, base, m, id);
    } else {
      InsertedOnTop(children, m, i);
      InsertedRoot(m[id]);
    }
  }

  /** Fresh insertions and deletions always show in the list of child identifiers. */
  lemma {:induction false} ChildIdsKeptIff(children: seq<Node>, base: set<string>, m: map<string, Operation>)
    requires FreshFor(base, m) && Ids(children) <= base
    ensures ChildIds(Rewrite(children, m)) == ChildIds(children) <==> !ChildListEdited(children, m)
  {
    if ChildListEdited(children, m) {
      ChildListShows(children, base, m);
      SameIdsSameTop(Rewrite(children, m), children);
    } else {
      ChildListKept(children, m);
    }
  }

  /** After a patch, a surviving node keeps its base hash exactly when its own content and
      attributes came out as they were and no child was deleted or inserted beside,
      whatever changed further down. */
  lemma {:induction false} HashKeptIff(f: seq<Node>, m: map<string, Operation>, id: string)
    requires Unique(f) && Hashed(f) && Planned(f, m) && Survives(f, m, id)
    ensures NodeOf(f, id).Some? && NodeOf(Rehashed(Rewrite(f, m)), id).Some?
    ensures var before := NodeOf(f, id).value;
      (NodeOf(Rehashed(Rewrite(f, m)), id).value.hash == before.hash) <==>
        (Own(m, before).content == before.content
         && Own(m, before).attributes == before.attributes
         && !ChildListEdited(before.children, m))
  {
    NodeOfHashed(f, id);
    NodeSurvives(f, m, id);
    NodeOfRehashed(Rewrite(f, m), id);
    var before := NodeOf(f, id).value;
    ChildIdsKeptIff(before.children, Ids(f), m);
  }
}
