/** Applying a patch: operations one after another, and the same operations at once. */
module PatchTree {
  import opened Options
  import opened JsonValues
  import opened DocumentTree

  datatype Operation =
    | Replace(target: string, expected: Hash, content: string)
    | Update(target: string, expected: Hash, changes: map<string, Json>)
    | Delete(target: string, expected: Hash)
    | InsertBefore(target: string, expected: Hash, parentId: string, parentHash: Hash, node: Node)
    | InsertAfter(target: string, expected: Hash, parentId: string, parentHash: Hash, node: Node)
  {
    predicate Inserts() { InsertBefore? || InsertAfter? }

    function Inserted(): seq<Node> {
      if Inserts() then [node] else []
    }
  }

  datatype Error = Missing | StaleHash | RootDeleted | WrongParent | StaleParent | Mismatch | Invalid

  datatype Result<+T> = Ok(value: T) | Failed(error: Error) {
    predicate IsFailure() { Failed? }
    function PropagateFailure<U>(): Result<U> requires Failed? { Failed(error) }
    function Extract(): T requires Ok? { value }
  }

  /** Null values remove a key, others set it. */
  function Changed(attributes: map<string, Json>, changes: map<string, Json>): map<string, Json> {
    map k | k in attributes.Keys + changes.Keys && !(k in changes && changes[k] == JNull)
      :: if k in changes then changes[k] else attributes[k]
  }

  /** What takes the place of the target node. */
  function Outcome(op: Operation, t: Node): seq<Node> {
    match op
    case Replace(_, _, content) => [t.(content := content)]
    case Update(_, _, changes) => [t.(attributes := Changed(t.attributes, changes))]
    case Delete(_, _) => []
    case InsertBefore(_, _, _, _, node) => [node, t]
    case InsertAfter(_, _, _, _, node) => [t, node]
  }

  /** The edit made at the first node found. */
  function EditFirst(f: seq<Node>, op: Operation): seq<Node> {
    if f == [] then []
    else if f[0].id == op.target then Outcome(op, f[0]) + f[1..]
    else if op.target in Ids(f[0].children) then
      [f[0].(children := EditFirst(f[0].children, op))] + f[1..]
    else [f[0]] + EditFirst(f[1..], op)
  }

  /** The checks made before the edit, against the hashes the tree still carries. */
  function Check(f: seq<Node>, op: Operation): Result<()> {
    var found := Find(f, None, op.target);
    if found.None? then Failed(Missing)
    else if found.value.hash != op.expected then Failed(StaleHash)
    else if op.Delete? && found.value.parent.None? then Failed(RootDeleted)
    else if op.Inserts() && (found.value.parent.None? || found.value.parent.value.id != op.parentId) then
      Failed(WrongParent)
    else if op.Inserts() && found.value.parent.value.hash != op.parentHash then Failed(StaleParent)
    else Ok(())
  }

  function ApplyOp(f: seq<Node>, op: Operation): Result<seq<Node>> {
    var _ :- Check(f, op);
    Ok(EditFirst(f, op))
  }

  /** One operation after another, each on the tree the ones before left behind. */
  function ApplyAll(f: seq<Node>, ops: seq<Operation>): Result<seq<Node>> {
    if ops == [] then Ok(f)
    else
      var before :- ApplyAll(f, ops[..|ops| - 1]);
      ApplyOp(before, ops[|ops| - 1])
  }

  /** All operations at once, in one pass over the tree. */
  function Rewrite(f: seq<Node>, m: map<string, Operation>): seq<Node> {
    if f == [] then []
    else
      var t := f[0].(children := Rewrite(f[0].children, m));
      (if t.id in m then Outcome(m[t.id], t) else [t]) + Rewrite(f[1..], m)
  }

  function ByTarget(ops: seq<Operation>): map<string, Operation> {
    if ops == [] then map[]
    else ByTarget(ops[..|ops| - 1])[ops[|ops| - 1].target := ops[|ops| - 1]]
  }

  // ---- Plans ----

  predicate DistinctTargets(ops: seq<Operation>) {
    forall i, j | 0 <= i < j < |ops| :: ops[i].target != ops[j].target
  }

  /** Inserted trees bring new identifiers, each once. */
  predicate FreshInserts(f: seq<Node>, ops: seq<Operation>) {
    && (forall i | 0 <= i < |ops| :: Unique(ops[i].Inserted()) && Ids(ops[i].Inserted()) !! Ids(f))
    && (forall i, j | 0 <= i < j < |ops| :: Ids(ops[i].Inserted()) !! Ids(ops[j].Inserted()))
  }

  /** What validation establishes about the operations of a patch on a document. */
  predicate Plan(f: seq<Node>, ops: seq<Operation>) {
    && Unique(f)
    && DistinctTargets(ops)
    && (forall i | 0 <= i < |ops| :: ops[i].target in Ids(f))
    && FreshInserts(f, ops)
  }

  /** The same about a set of operations by target. */
  predicate Planned(f: seq<Node>, m: map<string, Operation>) {
    && (forall k | k in m :: m[k].target == k && k in Ids(f))
    && (forall k | k in m :: Unique(m[k].Inserted()) && Ids(m[k].Inserted()) !! Ids(f))
    && (forall k, l | k in m && l in m && k != l :: Ids(m[k].Inserted()) !! Ids(m[l].Inserted()))
  }

  /** Every entry is one of the operations, filed under its target. */
  lemma {:induction false} ByTargetEntry(ops: seq<Operation>, k: string) returns (i: nat)
    requires k in ByTarget(ops)
    ensures i < |ops| && ops[i].target == k && ByTarget(ops)[k] == ops[i]
  {
    var n := |ops| - 1;
    if ops[n].target == k {
      i := n;
    } else {
      i := ByTargetEntry(ops[..n], k);
    }
  }

  lemma {:induction false} ByTargetHas(ops: seq<Operation>, i: nat)
    requires DistinctTargets(ops) && i < |ops|
    ensures ops[i].target in ByTarget(ops) && ByTarget(ops)[ops[i].target] == ops[i]
  {
    var n := |ops| - 1;
    if i < n {
      ByTargetHas(ops[..n], i);
    }
  }

  lemma {:induction false} ByTargetPlanned(f: seq<Node>, ops: seq<Operation>)
    requires Plan(f, ops)
    ensures Planned(f, ByTarget(ops))
  {
    var m := ByTarget(ops);
    forall k | k in m
      ensures m[k].target == k && k in Ids(f) && Unique(m[k].Inserted()) && Ids(m[k].Inserted()) !! Ids(f)
    {
      var i := ByTargetEntry(ops, k);
    }
    forall k, l | k in m && l in m && k != l
      ensures Ids(m[k].Inserted()) !! Ids(m[l].Inserted())
    {
      var i := ByTargetEntry(ops, k);
      var j := ByTargetEntry(ops, l);
    }
  }

  // ---- One edit on a rewritten tree ----

  /** The edit made wherever the target occurs. */
  function EditAll(f: seq<Node>, op: Operation): seq<Node> {
    if f == [] then []
    else
      (if f[0].id == op.target then Outcome(op, f[0])
       else [f[0].(children := EditAll(f[0].children, op))])
      + EditAll(f[1..], op)
  }

  lemma {:induction false} EditAllAppend(a: seq<Node>, b: seq<Node>, op: Operation)
    ensures EditAll(a + b, op) == EditAll(a, op) + EditAll(b, op)
  {
    if a == [] {
      assert a + b == b;
    } else {
      assert (a + b)[1..] == a[1..] + b;
      EditAllAppend(a[1..], b, op);
    }
  }

  lemma {:induction false} EditAllAbsent(f: seq<Node>, op: Operation)
    requires op.target !in Ids(f)
    ensures EditAll(f, op) == f
  {
    if f != [] {
      EditAllAbsent(f[0].children, op);
      EditAllAbsent(f[1..], op);
      assert f[0].(children := f[0].children) == f[0];
      assert [f[0]] + f[1..] == f;
    }
  }

  /** Where identifiers are unique, editing the first match edits the only one. */
  lemma {:induction false} EditFirstIsAll(f: seq<Node>, op: Operation)
    requires Unique(f)
    ensures EditFirst(f, op) == EditAll(f, op)
  {
    if f != [] {
      if f[0].id == op.target {
        EditAllAbsent(f[1..], op);
      } else if op.target in Ids(f[0].children) {
        EditFirstIsAll(f[0].children, op);
        EditAllAbsent(f[1..], op);
      } else {
        EditAllAbsent(f[0].children, op);
        assert f[0].(children := f[0].children) == f[0];
        EditFirstIsAll(f[1..], op);
      }
    }
  }

  lemma {:induction false} RewriteIgnores(f: seq<Node>, m: map<string, Operation>, op: Operation)
    requires op.target !in Ids(f)
    ensures Rewrite(f, m[op.target := op]) == Rewrite(f, m)
  {
    if f != [] {
      RewriteIgnores(f[0].children, m, op);
      RewriteIgnores(f[1..], m, op);
    }
  }

  predicate Avoids(m: map<string, Operation>, id: string) {
    id !in m && forall k | k in m :: m[k].target == k && id !in Ids(m[k].Inserted())
  }

  /** An edit elsewhere passes by an inserted tree beside the node. */
  lemma {:induction false} EditBeside(node: Node, t: Node, op: Operation)
    requires t.id != op.target && op.target !in Ids([node])
    ensures EditAll([node, t], op) == [node, t.(children := EditAll(t.children, op))]
    ensures EditAll([t, node], op) == [t.(children := EditAll(t.children, op)), node]
  {
    EditAllAbsent([node], op);
    EditOne(t, op);
    assert [node, t] == [node] + [t] && [t, node] == [t] + [node];
    EditAllAppend([node], [t], op);
    EditAllAppend([t], [node], op);
  }

  lemma {:induction false} EditOutcome(m: map<string, Operation>, t: Node, op: Operation)
    requires Avoids(m, op.target) && t.id in m
    ensures EditAll(Outcome(m[t.id], t), op)
         == Outcome(m[t.id], t.(children := EditAll(t.children, op)))
  {
    var o := m[t.id];
    assert t.id != op.target;
    if o.Inserts() {
      EditBeside(o.node, t, op);
    } else if !o.Delete? {
      EditOne(Outcome(o, t)[0], op);
    }
  }

  lemma {:induction false} EditOne(t: Node, op: Operation)
    requires t.id != op.target
    ensures EditAll([t], op) == [t.(children := EditAll(t.children, op))]
  {
    assert [t][1..] == [];
  }

  /** Making one more edit after a simultaneous rewrite is rewriting with one more operation. */
  lemma {:induction false} EditRewrite(f: seq<Node>, m: map<string, Operation>, op: Operation)
    requires Unique(f) && Avoids(m, op.target)
    ensures EditAll(Rewrite(f, m), op) == Rewrite(f, m[op.target := op])
  {
    if f != [] {
      var t := f[0].(children := Rewrite(f[0].children, m));
      var head := if t.id in m then Outcome(m[t.id], t) else [t];
      EditRewrite(f[1..], m, op);
      EditAllAppend(head, Rewrite(f[1..], m), op);
      if t.id == op.target {
        RewriteIgnores(f[0].children, m, op);
        assert [t][1..] == [];
        assert EditAll([t], op) == Outcome(op, t) + [];
      } else {
        EditRewrite(f[0].children, m, op);
        if t.id in m {
          EditOutcome(m, t, op);
        } else {
          EditOne(t, op);
        }
      }
    }
  }
}
