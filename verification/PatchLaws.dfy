/** One operation after another computes the simultaneous rewrite, so order does not matter. */
module PatchLaws {
  import opened Options
  import opened DocumentTree
  import opened PatchTree

  // ---- Rewriting keeps identifiers unique ----

  /** Inserted trees are new to `base` and to each other. */
  predicate FreshFor(base: set<string>, m: map<string, Operation>) {
    && (forall k | k in m :: m[k].target == k && Unique(m[k].Inserted()) && Ids(m[k].Inserted()) !! base)
    && (forall k, l | k in m && l in m && k != l :: Ids(m[k].Inserted()) !! Ids(m[l].Inserted()))
  }

  function InsertedAt(f: seq<Node>, m: map<string, Operation>): set<string> {
    if f == [] then {}
    else
      (if f[0].id in m then Ids(m[f[0].id].Inserted()) else {})
      + InsertedAt(f[0].children, m) + InsertedAt(f[1..], m)
  }

  lemma {:induction false} InsertedFrom(f: seq<Node>, m: map<string, Operation>, x: string) returns (k: string)
    requires x in InsertedAt(f, m)
    ensures k in m && k in Ids(f) && x in Ids(m[k].Inserted())
  {
    if f[0].id in m && x in Ids(m[f[0].id].Inserted()) {
      k := f[0].id;
    } else if x in InsertedAt(f[0].children, m) {
      k := InsertedFrom(f[0].children, m, x);
    } else {
      k := InsertedFrom(f[1..], m, x);
    }
  }

  lemma {:induction false} InsertedApart(f: seq<Node>, g: seq<Node>, base: set<string>, m: map<string, Operation>)
    requires FreshFor(base, m) && Ids(f) !! Ids(g)
    ensures InsertedAt(f, m) !! InsertedAt(g, m)
    ensures InsertedAt(f, m) !! base
  {
    if x :| x in InsertedAt(f, m) && x in InsertedAt(g, m) {
      var k := InsertedFrom(f, m, x);
      var l := InsertedFrom(g, m, x);
    }
    if x :| x in InsertedAt(f, m) && x in base {
      var k := InsertedFrom(f, m, x);
    }
  }

  lemma {:induction false} OutcomeIds(op: Operation, t: Node)
    ensures Ids(Outcome(op, t)) == (if op.Delete? then {} else {t.id} + Ids(t.children)) + Ids(op.Inserted())
  {
    assert Ids([t]) == {t.id} + Ids(t.children) + Ids([]);
    if op.Inserts() {
      assert [op.node, t] == [op.node] + [t] && [t, op.node] == [t] + [op.node];
      IdsAppend([op.node], [t]);
      IdsAppend([t], [op.node]);
    }
  }

  lemma {:induction false} RewriteIds(f: seq<Node>, m: map<string, Operation>)
    ensures Ids(Rewrite(f, m)) <= Ids(f) + InsertedAt(f, m)
  {
    if f != [] {
      var t := f[0].(children := Rewrite(f[0].children, m));
      RewriteIds(f[0].children, m);
      RewriteIds(f[1..], m);
      IdsAppend(if t.id in m then Outcome(m[t.id], t) else [t], Rewrite(f[1..], m));
      if t.id in m {
        OutcomeIds(m[t.id], t);
      } else {
        assert Ids([t]) == {t.id} + Ids(t.children) + Ids([]);
      }
    }
  }

  lemma {:induction false} OutcomeUnique(op: Operation, t: Node)
    requires t.id !in Ids(t.children) && Unique(t.children) && Unique(op.Inserted())
    requires Ids(op.Inserted()) !! {t.id} + Ids(t.children)
    ensures Unique(Outcome(op, t)) && Unique([t])
  {
    assert Ids([]) == {};
    assert Ids([t]) == {t.id} + Ids(t.children) + Ids([]);
    if op.Inserts() {
      assert [op.node, t] == [op.node] + [t] && [t, op.node] == [t] + [op.node];
      UniqueAppend([op.node], [t]);
      UniqueAppend([t], [op.node]);
    }
  }

  lemma {:induction false} HeadApart(f: seq<Node>, base: set<string>, m: map<string, Operation>)
    requires f != [] && f[0].id in m && FreshFor(base, m) && Ids(f) <= base && Unique(f)
    ensures Ids(m[f[0].id].Inserted()) !! InsertedAt(f[0].children, m)
    ensures Ids(m[f[0].id].Inserted()) !! InsertedAt(f[1..], m)
  {
    if x :| x in Ids(m[f[0].id].Inserted()) && x in InsertedAt(f[0].children, m) {
      var k := InsertedFrom(f[0].children, m, x);
    }
    if x :| x in Ids(m[f[0].id].Inserted()) && x in InsertedAt(f[1..], m) {
      var k := InsertedFrom(f[1..], m, x);
    }
  }

  /** What the rewrite puts in place of the first node. */
  function Head(f: seq<Node>, m: map<string, Operation>): seq<Node>
    requires f != []
  {
    var t := f[0].(children := Rewrite(f[0].children, m));
    if t.id in m then Outcome(m[t.id], t) else [t]
  }

  function HeadInserted(f: seq<Node>, m: map<string, Operation>): set<string>
    requires f != []
  {
    if f[0].id in m then Ids(m[f[0].id].Inserted()) else {}
  }

  lemma {:induction false} HeadIds(f: seq<Node>, m: map<string, Operation>)
    requires f != []
    ensures Ids(Head(f, m)) <= {f[0].id} + Ids(f[0].children) + InsertedAt(f[0].children, m) + HeadInserted(f, m)
  {
    var t := f[0].(children := Rewrite(f[0].children, m));
    RewriteIds(f[0].children, m);
    if t.id in m {
      OutcomeIds(m[t.id], t);
    } else {
      assert Ids([t]) == {t.id} + Ids(t.children) + Ids([]);
    }
  }

  lemma {:induction false} HeadUnique(f: seq<Node>, base: set<string>, m: map<string, Operation>)
    requires f != [] && Unique(f) && Ids(f) <= base && FreshFor(base, m)
    requires Unique(Rewrite(f[0].children, m))
    ensures Unique(Head(f, m))
  {
    var t := f[0].(children := Rewrite(f[0].children, m));
    RewriteIds(f[0].children, m);
    InsertedApart(f[0].children, f[1..], base, m);
    if t.id in m {
      HeadApart(f, base, m);
      OutcomeUnique(m[t.id], t);
    } else {
      OutcomeUnique(Replace(t.id, NoHash, ""), t);
    }
  }

  lemma {:induction false} HeadApartFromRest(f: seq<Node>, base: set<string>, m: map<string, Operation>)
    requires f != [] && Unique(f) && Ids(f) <= base && FreshFor(base, m)
    ensures Ids(Head(f, m)) !! Ids(Rewrite(f[1..], m))
  {
    HeadIds(f, m);
    RewriteIds(f[1..], m);
    InsertedApart(f[0].children, f[1..], base, m);
    InsertedApart(f[1..], f[0].children, base, m);
    if f[0].id in m {
      HeadApart(f, base, m);
    }
  }

  lemma {:induction false} RewriteUnique(f: seq<Node>, base: set<string>, m: map<string, Operation>)
    requires Unique(f) && Ids(f) <= base && FreshFor(base, m)
    ensures Unique(Rewrite(f, m))
  {
    if f != [] {
      RewriteUnique(f[0].children, base, m);
      RewriteUnique(f[1..], base, m);
      HeadUnique(f, base, m);
      HeadApartFromRest(f, base, m);
      UniqueAppend(Head(f, m), Rewrite(f[1..], m));
    }
  }

  // ---- Which nodes survive ----

  /** Lookup in the base tree that does not enter deleted nodes. */
  function FindAlive(f: seq<Node>, parent: Option<Parent>, m: map<string, Operation>, id: string): Option<Found> {
    if f == [] then None
    else if f[0].id in m && m[f[0].id].Delete? then FindAlive(f[1..], parent, m, id)
    else if f[0].id == id then Some(Found(f[0].hash, parent))
    else OrElse(FindAlive(f[0].children, Some(Parent(f[0].id, f[0].hash)), m, id), FindAlive(f[1..], parent, m, id))
  }

  lemma {:induction false} FindOutcome(op: Operation, t: Node, parent: Option<Parent>, id: string)
    requires id != t.id && id !in Ids(op.Inserted())
    ensures Find(Outcome(op, t), parent, id)
         == if op.Delete? then None else Find(t.children, Some(Parent(t.id, t.hash)), id)
  {
    assert Find([], parent, id) == None;
    assert [t][1..] == [];
    assert Find([t], parent, id) == OrElse(Find(t.children, Some(Parent(t.id, t.hash)), id), None);
    if op.Inserts() {
      FindIff([op.node], parent, id);
      assert [op.node, t] == [op.node] + [t] && [t, op.node] == [t] + [op.node];
      FindAppend([op.node], [t], parent, id);
      FindAppend([t], [op.node], parent, id);
    } else if !op.Delete? {
      var u := Outcome(op, t)[0];
      assert [u][1..] == [];
    }
  }

  /** Looking up a node after a rewrite finds what the base tree had, unless it is gone. */
  lemma {:induction false} FindRewrite(f: seq<Node>, parent: Option<Parent>, m: map<string, Operation>, id: string)
    requires Avoids(m, id)
    ensures Find(Rewrite(f, m), parent, id) == FindAlive(f, parent, m, id)
  {
    if f != [] {
      var t := f[0].(children := Rewrite(f[0].children, m));
      FindRewrite(f[0].children, Some(Parent(t.id, t.hash)), m, id);
      FindRewrite(f[1..], parent, m, id);
      FindAppend(if t.id in m then Outcome(m[t.id], t) else [t], Rewrite(f[1..], m), parent, id);
      if t.id in m {
        FindOutcome(m[t.id], t, parent, id);
      } else {
        assert [t][1..] == [];
        assert Find([], parent, id) == None;
      }
    }
  }

  /** Identifiers strictly below the node a. */
  function Below(f: seq<Node>, a: string): set<string> {
    if f == [] then {}
    else (if f[0].id == a then Ids(f[0].children) else Below(f[0].children, a)) + Below(f[1..], a)
  }

  lemma {:induction false} BelowIds(f: seq<Node>, a: string)
    ensures Below(f, a) <= Ids(f)
  {
    if f != [] {
      BelowIds(f[0].children, a);
      BelowIds(f[1..], a);
    }
  }

  predicate Buried(f: seq<Node>, m: map<string, Operation>, id: string) {
    exists a :: a in m && m[a].Delete? && id in Below(f, a)
  }

  lemma {:induction false} AliveInIds(f: seq<Node>, parent: Option<Parent>, m: map<string, Operation>, id: string)
    requires FindAlive(f, parent, m, id).Some?
    ensures id in Ids(f)
  {
    if !(f[0].id in m && m[f[0].id].Delete?) && f[0].id == id {
    } else if !(f[0].id in m && m[f[0].id].Delete?)
              && FindAlive(f[0].children, Some(Parent(f[0].id, f[0].hash)), m, id).Some? {
      AliveInIds(f[0].children, Some(Parent(f[0].id, f[0].hash)), m, id);
    } else {
      AliveInIds(f[1..], parent, m, id);
    }
  }

  lemma {:induction false} BuriedHere(f: seq<Node>, m: map<string, Operation>, id: string)
    requires Unique(f) && f != []
    ensures id in Ids(f[0].children) ==>
      (Buried(f, m, id) <==> (f[0].id in m && m[f[0].id].Delete?) || Buried(f[0].children, m, id))
    ensures id !in Ids(f[0].children) ==> (Buried(f, m, id) <==> Buried(f[1..], m, id))
  {
    forall a
      ensures id in Ids(f[0].children) && a != f[0].id ==> (id in Below(f, a) <==> id in Below(f[0].children, a))
      ensures id !in Ids(f[0].children) ==> (id in Below(f, a) <==> id in Below(f[1..], a))
    {
      BelowIds(f[0].children, a);
      BelowIds(f[1..], a);
    }
    BelowIds(f[0].children, f[0].id);
    if id in Ids(f[0].children) && f[0].id in m && m[f[0].id].Delete? {
      assert id in Below(f, f[0].id);
    }
    NotBelowAbsent(f[0].children, f[0].id);
  }

  lemma {:induction false} NotBelowAbsent(f: seq<Node>, a: string)
    requires a !in Ids(f)
    ensures Below(f, a) == {}
  {
    if f != [] {
      NotBelowAbsent(f[0].children, a);
      NotBelowAbsent(f[1..], a);
    }
  }

  /** A node survives exactly when no deleted node is above it. */
  lemma {:induction false} AliveIff(f: seq<Node>, parent: Option<Parent>, m: map<string, Operation>, id: string)
    requires Unique(f) && id !in m
    ensures FindAlive(f, parent, m, id) == if Buried(f, m, id) then None else Find(f, parent, id)
  {
    if f != [] {
      var below := Some(Parent(f[0].id, f[0].hash));
      AliveIff(f[0].children, below, m, id);
      AliveIff(f[1..], parent, m, id);
      BuriedHere(f, m, id);
      FindIff(f[0].children, below, id);
      FindIff(f[1..], parent, id);
      if FindAlive(f[1..], parent, m, id).Some? {
        AliveInIds(f[1..], parent, m, id);
      }
      if f[0].id == id && Buried(f[1..], m, id) {
        var a :| a in m && m[a].Delete? && id in Below(f[1..], a);
        BelowIds(f[1..], a);
      }
    } else {
      assert forall a :: Below(f, a) == {};
    }
  }

  // ---- The sequence of edits is the simultaneous rewrite ----

  /** Operation i passes every check against the base tree, and no earlier operation
      deleted a node above its target. */
  predicate Admissible(f: seq<Node>, ops: seq<Operation>, i: nat)
    requires i < |ops|
  {
    && Check(f, ops[i]).Ok?
    && forall j | 0 <= j < i && ops[j].Delete? :: ops[i].target !in Below(f, ops[j].target)
  }

  predicate AllAdmissible(f: seq<Node>, ops: seq<Operation>) {
    forall i | 0 <= i < |ops| :: Admissible(f, ops, i)
  }

  lemma {:induction false} PlanPrefix(f: seq<Node>, ops: seq<Operation>, n: nat)
    requires Plan(f, ops) && n <= |ops|
    ensures Plan(f, ops[..n])
  {
  }

  lemma {:induction false} BuriedByEarlier(f: seq<Node>, ops: seq<Operation>, n: nat)
    requires Plan(f, ops) && n < |ops|
    ensures Buried(f, ByTarget(ops[..n]), ops[n].target)
       <==> exists j :: 0 <= j < n && ops[j].Delete? && ops[n].target in Below(f, ops[j].target)
  {
    var m := ByTarget(ops[..n]);
    if Buried(f, m, ops[n].target) {
      var a :| a in m && m[a].Delete? && ops[n].target in Below(f, a);
      var j := ByTargetEntry(ops[..n], a);
      assert ops[j] == ops[..n][j];
    }
    if j :| 0 <= j < n && ops[j].Delete? && ops[n].target in Below(f, ops[j].target) {
      PlanPrefix(f, ops, n);
      ByTargetHas(ops[..n], j);
      assert ops[..n][j] == ops[j];
    }
  }

  lemma {:induction false} NextAvoids(f: seq<Node>, ops: seq<Operation>, n: nat)
    requires Plan(f, ops) && n < |ops|
    ensures Avoids(ByTarget(ops[..n]), ops[n].target)
    ensures FreshFor(Ids(f), ByTarget(ops[..n]))
  {
    var m := ByTarget(ops[..n]);
    PlanPrefix(f, ops, n);
    ByTargetPlanned(f, ops[..n]);
    if ops[n].target in m {
      var j := ByTargetEntry(ops[..n], ops[n].target);
    }
  }

  /** On a rewritten tree an operation passes its checks exactly when it passes them on the
      base tree and its target is still there. */
  lemma {:induction false} CheckAfterRewrite(f: seq<Node>, ops: seq<Operation>, n: nat)
    requires Plan(f, ops) && n < |ops|
    ensures var m := ByTarget(ops[..n]);
      Check(Rewrite(f, m), ops[n]).Ok? <==> Check(f, ops[n]).Ok? && !Buried(f, m, ops[n].target)
  {
    var m := ByTarget(ops[..n]);
    NextAvoids(f, ops, n);
    FindRewrite(f, None, m, ops[n].target);
    AliveIff(f, None, m, ops[n].target);
  }

  lemma {:induction false} EditAfterRewrite(f: seq<Node>, ops: seq<Operation>, n: nat)
    requires Plan(f, ops) && n < |ops|
    ensures EditFirst(Rewrite(f, ByTarget(ops[..n])), ops[n])
         == Rewrite(f, ByTarget(ops[..n])[ops[n].target := ops[n]])
  {
    var m := ByTarget(ops[..n]);
    NextAvoids(f, ops, n);
    RewriteUnique(f, Ids(f), m);
    EditFirstIsAll(Rewrite(f, m), ops[n]);
    EditRewrite(f, m, ops[n]);
  }

  lemma {:induction false} RewriteNothing(f: seq<Node>)
    ensures Rewrite(f, map[]) == f
  {
    if f != [] {
      RewriteNothing(f[0].children);
      RewriteNothing(f[1..]);
      assert f[0].(children := f[0].children) == f[0];
      assert [f[0]] + f[1..] == f;
    }
  }

  /** One operation more. */
  lemma {:induction false} SequentialStep(f: seq<Node>, ops: seq<Operation>, n: nat)
    requires Plan(f, ops) && n + 1 == |ops|
    requires ApplyAll(f, ops[..n]).Ok? <==> AllAdmissible(f, ops[..n])
    requires ApplyAll(f, ops[..n]).Ok? ==> ApplyAll(f, ops[..n]).value == Rewrite(f, ByTarget(ops[..n]))
    ensures ApplyAll(f, ops).Ok? <==> AllAdmissible(f, ops)
    ensures ApplyAll(f, ops).Ok? ==> ApplyAll(f, ops).value == Rewrite(f, ByTarget(ops))
  {
    AdmissiblePrefix(f, ops);
    CheckAfterRewrite(f, ops, n);
    BuriedByEarlier(f, ops, n);
    EditAfterRewrite(f, ops, n);
  }

  /** Applying the operations one by one succeeds exactly when each is admissible, and then
      gives the tree that applying all of them at once gives. */
  lemma {:induction false} SequentialIsSimultaneous(f: seq<Node>, ops: seq<Operation>)
    requires Plan(f, ops)
    ensures ApplyAll(f, ops).Ok? <==> AllAdmissible(f, ops)
    ensures ApplyAll(f, ops).Ok? ==> ApplyAll(f, ops).value == Rewrite(f, ByTarget(ops))
    decreases |ops|
  {
    if ops == [] {
      RewriteNothing(f);
    } else {
      var n := |ops| - 1;
      assert Plan(f, ops[..n]) by {
        PlanPrefix(f, ops, n);
      }
      SequentialIsSimultaneous(f, ops[..n]);
      SequentialStep(f, ops, n);
    }
  }

  lemma {:induction false} AdmissiblePrefix(f: seq<Node>, ops: seq<Operation>)
    requires ops != []
    ensures AllAdmissible(f, ops) <==> AllAdmissible(f, ops[..|ops| - 1]) && Admissible(f, ops, |ops| - 1)
  {
    var n := |ops| - 1;
    forall i | 0 <= i < n
      ensures Admissible(f, ops[..n], i) <==> Admissible(f, ops, i)
    {
      assert forall j | 0 <= j <= i :: ops[..n][j] == ops[j];
    }
  }

  /** The same operations in another order. */
  ghost predicate Reordered(a: seq<Operation>, b: seq<Operation>) {
    multiset(a) == multiset(b)
  }

  lemma {:induction false} SameByTarget(f: seq<Node>, a: seq<Operation>, b: seq<Operation>)
    requires Plan(f, a) && Plan(f, b) && Reordered(a, b)
    ensures ByTarget(a) == ByTarget(b)
  {
    forall k
      ensures k in ByTarget(a) ==> k in ByTarget(b) && ByTarget(b)[k] == ByTarget(a)[k]
      ensures k in ByTarget(b) ==> k in ByTarget(a)
    {
      if k in ByTarget(a) {
        var i := ByTargetEntry(a, k);
        InOther(a, b, i);
      }
      if k in ByTarget(b) {
        var i := ByTargetEntry(b, k);
        InOther(b, a, i);
      }
    }
  }

  lemma {:induction false} InOther(a: seq<Operation>, b: seq<Operation>, i: nat)
    requires Reordered(a, b) && i < |a| && DistinctTargets(b)
    ensures a[i].target in ByTarget(b) && ByTarget(b)[a[i].target] == a[i]
  {
    assert a[i] in multiset(a);
    assert a[i] in multiset(b);
    var j :| 0 <= j < |b| && b[j] == a[i];
    ByTargetHas(b, j);
  }

  /** Any two orders that both succeed give the same tree. */
  lemma {:induction false} OrderDoesNotMatter(f: seq<Node>, a: seq<Operation>, b: seq<Operation>)
    requires Plan(f, a) && Plan(f, b) && Reordered(a, b)
    requires ApplyAll(f, a).Ok? && ApplyAll(f, b).Ok?
    ensures ApplyAll(f, a) == ApplyAll(f, b)
  {
    SequentialIsSimultaneous(f, a);
    SequentialIsSimultaneous(f, b);
    SameByTarget(f, a, b);
  }

  /** No operation's target lies under a node that any of them deletes. */
  predicate NoneUnderDeleted(f: seq<Node>, ops: seq<Operation>) {
    forall i, j | 0 <= i < |ops| && 0 <= j < |ops| && ops[j].Delete? :: ops[i].target !in Below(f, ops[j].target)
  }

  /** When no operation's target lies under a node another one deletes, success does not
      depend on the order either. */
  lemma {:induction false} AnyOrderWorks(f: seq<Node>, a: seq<Operation>, b: seq<Operation>)
    requires Plan(f, a) && Plan(f, b) && Reordered(a, b)
    requires ApplyAll(f, a).Ok?
    requires NoneUnderDeleted(f, a)
    ensures ApplyAll(f, b) == ApplyAll(f, a)
  {
    SequentialIsSimultaneous(f, a);
    SequentialIsSimultaneous(f, b);
    forall i | 0 <= i < |b|
      ensures Admissible(f, b, i)
    {
      assert b[i] in multiset(b) && b[i] in multiset(a);
      var k :| 0 <= k < |a| && a[k] == b[i];
      assert Admissible(f, a, k);
      forall j | 0 <= j < i && b[j].Delete?
        ensures b[i].target !in Below(f, b[j].target)
      {
        assert b[j] in multiset(b) && b[j] in multiset(a);
        var l :| 0 <= l < |a| && a[l] == b[j];
      }
    }
    SameByTarget(f, a, b);
  }

  lemma {:induction false} ReorderedAt(a: seq<Operation>, b: seq<Operation>, i: nat) returns (k: nat)
    requires Reordered(a, b) && i < |b|
    ensures k < |a| && a[k] == b[i]
  {
    assert b[i] in multiset(b) && b[i] in multiset(a);
    k :| 0 <= k < |a| && a[k] == b[i];
  }

  lemma {:induction false} OnlyOnce<T>(s: seq<T>, i: nat, j: nat)
    requires i < j < |s| && s[i] == s[j]
    ensures multiset(s)[s[i]] >= 2
  {
    assert s == s[..j] + [s[j]] + s[j + 1..];
    assert s[i] in s[..j];
    assert multiset(s[..j])[s[i]] >= 1;
  }

  lemma {:induction false} CountedOnce<T>(s: seq<T>, x: T)
    requires forall i, j | 0 <= i < j < |s| :: s[i] != s[j]
    ensures multiset(s)[x] <= 1
    decreases |s|
  {
    if s != [] {
      var n := |s| - 1;
      assert s == s[..n] + [s[n]];
      CountedOnce(s[..n], x);
      if x == s[n] {
        assert x !in s[..n];
      }
    }
  }

  /** Another order of a plan is a plan. */
  lemma {:induction false} PlanReordered(f: seq<Node>, a: seq<Operation>, b: seq<Operation>)
    requires Plan(f, a) && Reordered(a, b)
    ensures Plan(f, b)
  {
    forall i | 0 <= i < |b|
      ensures b[i].target in Ids(f) && Unique(b[i].Inserted()) && Ids(b[i].Inserted()) !! Ids(f)
    {
      var k := ReorderedAt(a, b, i);
    }
    forall i, j | 0 <= i < j < |b|
      ensures b[i].target != b[j].target && Ids(b[i].Inserted()) !! Ids(b[j].Inserted())
    {
      var k := ReorderedAt(a, b, i);
      var l := ReorderedAt(a, b, j);
      if k == l {
        OnlyOnce(b, i, j);
        CountedOnce(a, a[k]);
        assert false;
      }
    }
  }

  /** The operations with the j-th one first. */
  function First(ops: seq<Operation>, j: nat): seq<Operation>
    requires j < |ops|
  {
    [ops[j]] + ops[..j] + ops[j + 1..]
  }

  lemma {:induction false} FirstReorders(ops: seq<Operation>, j: nat)
    requires j < |ops|
    ensures Reordered(ops, First(ops, j))
  {
    assert ops == ops[..j] + [ops[j]] + ops[j + 1..];
  }

  lemma {:induction false} FirstBuries(f: seq<Node>, ops: seq<Operation>, i: nat, j: nat)
    requires Plan(f, ops) && i < |ops| && j < |ops| && ops[j].Delete? && ops[i].target in Below(f, ops[j].target)
    ensures ApplyAll(f, First(ops, j)).Failed?
  {
    var b := First(ops, j);
    FirstReorders(ops, j);
    PlanReordered(f, ops, b);
    SequentialIsSimultaneous(f, b);
    NotBelowItself(f, ops[j].target);
    var k := ReorderedAt(b, ops, i);
    assert b[0] == ops[j] && k != 0;
    assert !Admissible(f, b, k);
  }

  lemma {:induction false} NotBelowItself(f: seq<Node>, a: string)
    requires Unique(f)
    ensures a !in Below(f, a)
  {
    if f != [] {
      NotBelowItself(f[0].children, a);
      NotBelowItself(f[1..], a);
    }
  }

  /** Every order of the operations is applied successfully exactly when each passes its
      checks on the base tree and none works under a node that another one deletes. */
  lemma {:induction false} EveryOrderWorksIff(f: seq<Node>, ops: seq<Operation>)
    requires Plan(f, ops)
    ensures (forall b | Reordered(ops, b) :: ApplyAll(f, b).Ok?)
       <==> (forall i | 0 <= i < |ops| :: Check(f, ops[i]).Ok?) && NoneUnderDeleted(f, ops)
  {
    SequentialIsSimultaneous(f, ops);
    if forall b | Reordered(ops, b) :: ApplyAll(f, b).Ok? {
      assert Reordered(ops, ops) && AllAdmissible(f, ops);
      forall i | 0 <= i < |ops|
        ensures Check(f, ops[i]).Ok?
      {
        assert Admissible(f, ops, i);
      }
      forall i, j | 0 <= i < |ops| && 0 <= j < |ops| && ops[j].Delete?
        ensures ops[i].target !in Below(f, ops[j].target)
      {
        FirstReorders(ops, j);
        if ops[i].target in Below(f, ops[j].target) {
          FirstBuries(f, ops, i, j);
        }
      }
    }
    if (forall i | 0 <= i < |ops| :: Check(f, ops[i]).Ok?) && NoneUnderDeleted(f, ops) {
      assert AllAdmissible(f, ops);
      forall b | Reordered(ops, b)
        ensures ApplyAll(f, b).Ok?
      {
        PlanReordered(f, ops, b);
        AnyOrderWorks(f, ops, b);
      }
    }
  }
}
