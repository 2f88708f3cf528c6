/** Validating the operations of a patch against an immutable snapshot. */
module PatchValidation {
  import opened Options
  import opened JsonValues
  import opened DocumentTree
  import opened PatchTree
  import opened PatchLaws
  import opened HashLaws
  import opened PatchLimits
  import opened Patches

  // ---- The index of nodes and parents ----

  /** The first place, in document order, where the identifier has a parent. */
  function ParentIn(f: seq<Node>, parent: Option<Node>, id: string): Option<Node> {
    if f == [] then None
    else if f[0].id == id && parent.Some? then parent
    else OrElse(ParentIn(f[0].children, Some(f[0]), id), ParentIn(f[1..], parent, id))
  }

  function Lookup(m: map<string, Node>, id: string): Option<Node> {
    if id in m then Some(m[id]) else None
  }

  /** The nodes dictionary after a forest: earlier entries win. */
  ghost predicate NodesFilled(before: map<string, Node>, after: map<string, Node>, f: seq<Node>) {
    forall id :: Lookup(after, id) == OrElse(Lookup(before, id), NodeOf(f, id))
  }

  ghost predicate ParentsFilled(before: map<string, Node>, after: map<string, Node>, f: seq<Node>, parent: Option<Node>) {
    forall id :: Lookup(after, id) == OrElse(Lookup(before, id), ParentIn(f, parent, id))
  }

  function WithNode(m: map<string, Node>, id: string, t: Node): map<string, Node> {
    if id in m then m else m[id := t]
  }

  lemma {:induction false} FillNodes(m: map<string, Node>, below: map<string, Node>, after: map<string, Node>, f: seq<Node>)
    requires f != []
    requires NodesFilled(WithNode(m, f[0].id, f[0]), below, f[0].children) && NodesFilled(below, after, f[1..])
    ensures NodesFilled(m, after, f)
  {
    forall id
      ensures Lookup(after, id) == OrElse(Lookup(m, id), NodeOf(f, id))
    {
      assert Lookup(after, id) == OrElse(Lookup(below, id), NodeOf(f[1..], id));
      assert Lookup(below, id) == OrElse(Lookup(WithNode(m, f[0].id, f[0]), id), NodeOf(f[0].children, id));
    }
  }

  lemma {:induction false} FillParents(m: map<string, Node>, below: map<string, Node>, after: map<string, Node>, f: seq<Node>,
                    parent: Option<Node>)
    requires f != []
    requires ParentsFilled(if parent.Some? then WithNode(m, f[0].id, parent.value) else m, below, f[0].children, Some(f[0]))
    requires ParentsFilled(below, after, f[1..], parent)
    ensures ParentsFilled(m, after, f, parent)
  {
    var here := if parent.Some? then WithNode(m, f[0].id, parent.value) else m;
    forall id
      ensures Lookup(after, id) == OrElse(Lookup(m, id), ParentIn(f, parent, id))
    {
      assert Lookup(after, id) == OrElse(Lookup(below, id), ParentIn(f[1..], parent, id));
      assert Lookup(below, id) == OrElse(Lookup(here, id), ParentIn(f[0].children, Some(f[0]), id));
    }
  }

  lemma {:induction false} FilledKeys(before: map<string, Node>, after: map<string, Node>, f: seq<Node>)
    requires NodesFilled(before, after, f)
    ensures after.Keys == before.Keys + Ids(f)
  {
    forall id
      ensures id in after.Keys <==> id in before.Keys + Ids(f)
    {
      NodeOfIff(f, id);
      assert Lookup(after, id) == OrElse(Lookup(before, id), NodeOf(f, id));
    }
  }

  /** Fills the dictionaries of nodes and parents, first come first kept, and reports
      every identifier met again. */
  method Index(f: seq<Node>, parent: Option<Node>, nodes0: map<string, Node>, parents0: map<string, Node>)
    returns (nodes: map<string, Node>, parents: map<string, Node>, repeated: seq<string>)
    ensures NodesFilled(nodes0, nodes, f) && ParentsFilled(parents0, parents, f, parent)
    ensures repeated == [] <==> Unique(f) && Ids(f) !! nodes0.Keys
    decreases f
  {
    nodes, parents, repeated := nodes0, parents0, [];
    if f != [] {
      var t := f[0];
      if t.id in nodes {
        repeated := [t.id];
      } else {
        nodes := nodes[t.id := t];
      }
      if parent.Some? && t.id !in parents {
        parents := parents[t.id := parent.value];
      }
      var belowNodes, belowParents, below := Index(t.children, Some(t), nodes, parents);
      FilledKeys(nodes, belowNodes, t.children);
      var after;
      nodes, parents, after := Index(f[1..], parent, belowNodes, belowParents);
      FillNodes(nodes0, belowNodes, nodes, f);
      FillParents(parents0, belowParents, parents, f, parent);
      repeated := repeated + below + after;
    }
  }

  lemma {:induction false} ParentOfAbsent(f: seq<Node>, parent: Option<Node>, id: string)
    requires id !in Ids(f)
    ensures ParentIn(f, parent, id) == None
  {
    if f != [] {
      ParentOfAbsent(f[0].children, Some(f[0]), id);
      ParentOfAbsent(f[1..], parent, id);
    }
  }

  function AsParent(t: Option<Node>): Option<Parent> {
    if t.Some? then Some(Parent(t.value.id, t.value.hash)) else None
  }

  /** Where identifiers are unique, the index and the locating walk agree on every one. */
  lemma {:induction false} IndexAgreesWithFind(f: seq<Node>, parent: Option<Node>, id: string)
    requires Unique(f) && id in Ids(f)
    ensures NodeOf(f, id).Some?
    ensures Find(f, AsParent(parent), id)
         == Some(Found(NodeOf(f, id).value.hash, AsParent(ParentIn(f, parent, id))))
  {
    NodeOfIff(f, id);
    if f[0].id == id {
      ParentOfAbsent(f[0].children, Some(f[0]), id);
      ParentOfAbsent(f[1..], parent, id);
    } else if id in Ids(f[0].children) {
      IndexAgreesWithFind(f[0].children, Some(f[0]), id);
      ParentOfAbsent(f[1..], parent, id);
    } else {
      FindIff(f[0].children, Some(Parent(f[0].id, f[0].hash)), id);
      NodeOfIff(f[0].children, id);
      ParentOfAbsent(f[0].children, Some(f[0]), id);
      IndexAgreesWithFind(f[1..], parent, id);
    }
  }

  // ---- Inserted trees ----

  /** Each inserted node on its own. */
  predicate InsertedNodeOk(t: Node, file: string, end: int, limits: Limits) {
    && NonBlank(t.id)
    && TextBytes(t.content) <= limits.maxTextBytes
    && PlaceValid(t, file, end)
    && (t.hash == NoHash || t.hash == HashNode(t))
  }

  predicate InsertedOk(f: seq<Node>, depth: nat, file: string, end: int, limits: Limits) {
    f == [] || (
      && depth <= limits.maxDepth
      && InsertedNodeOk(f[0], file, end, limits)
      && InsertedOk(f[0].children, depth + 1, file, end, limits)
      && InsertedOk(f[1..], depth, file, end, limits))
  }

  /** The walk over an inserted tree: collects its identifiers, counts what is wrong. */
  method CheckInserted(f: seq<Node>, depth: nat, file: string, end: int, limits: Limits, ids0: set<string>)
    returns (ids: set<string>, errors: nat)
    ensures errors == 0 <==> InsertedOk(f, depth, file, end, limits) && Unique(f) && Ids(f) !! ids0
    ensures errors == 0 ==> ids == ids0 + Ids(f)
    decreases f
  {
    ids, errors := ids0, 0;
    if f != [] {
      var t := f[0];
      if depth > limits.maxDepth {
        return ids, 1;
      }
      if !InsertedNodeOk(t, file, end, limits) {
        errors := errors + 1;
      }
      if t.id in ids {
        errors := errors + 1;
      }
      ids := ids + {t.id};
      var below, after;
      ids, below := CheckInserted(t.children, depth + 1, file, end, limits, ids);
      ids, after := CheckInserted(f[1..], depth, file, end, limits, ids);
      errors := errors + below + after;
    }
  }

  // ---- Operations ----

  /** What must hold of operation i: the checks of one turn of the validation loop. */
  predicate OperationOk(d: Document, ops: seq<Operation>, authorized: set<string>, limits: Limits, i: nat)
    requires i < |ops|
  {
    var op, f := ops[i], [d.root];
    && op.target in Ids(f)
    && op.target in authorized
    && NodeOf(f, op.target).Some? && NodeOf(f, op.target).value.hash == op.expected
    && (forall j | 0 <= j < i :: ops[j].target != op.target)
    && (op.Delete? ==> op.target != d.root.id)
    && (op.Inserts() ==>
          && ParentIn(f, None, op.target).Some?
          && ParentIn(f, None, op.target).value.id == op.parentId
          && ParentIn(f, None, op.target).value.hash == op.parentHash
          && op.parentId in authorized
          && InsertedOk([op.node], 0, d.root.location.file, d.root.location.end, limits)
          && Unique([op.node]) && Ids([op.node]) !! Ids(f)
          && (forall j | 0 <= j < i :: Ids(ops[j].Inserted()) !! Ids([op.node])))
  }

  predicate OperationsOk(d: Document, ops: seq<Operation>, authorized: set<string>, limits: Limits) {
    forall i | 0 <= i < |ops| :: OperationOk(d, ops, authorized, limits, i)
  }

  function InsertedUpTo(ops: seq<Operation>, n: nat): set<string>
    requires n <= |ops|
  {
    set j, x | 0 <= j < n && x in Ids(ops[j].Inserted()) :: x
  }

  /** One turn of the loop. */
  method CheckOperation(d: Document, ops: seq<Operation>, i: nat, authorized: set<string>, limits: Limits,
                        nodes: map<string, Node>, parents: map<string, Node>,
                        mutated: set<string>, newIds: set<string>)
    returns (ok: bool, inserted: set<string>)
    requires i < |ops|
    requires forall id :: Lookup(nodes, id) == NodeOf([d.root], id)
    requires forall id :: Lookup(parents, id) == ParentIn([d.root], None, id)
    ensures mutated == (set j | 0 <= j < i :: ops[j].target) && newIds == InsertedUpTo(ops, i) ==>
      (ok <==> OperationOk(d, ops, authorized, limits, i))
    ensures ok ==> inserted == Ids(ops[i].Inserted()) && ops[i].target in nodes
  {
    var op := ops[i];
    inserted := {};
    NodeOfIff([d.root], op.target);
    if op.target !in nodes {
      assert Lookup(nodes, op.target) == None;
      return false, {};
    }
    assert Lookup(nodes, op.target) == Some(nodes[op.target]);
    ok := op.target in authorized && nodes[op.target].hash == op.expected && op.target !in mutated;
    if op.Delete? && op.target == d.root.id {
      ok := false;
    }
    if op.Inserts() {
      assert Lookup(parents, op.target) == ParentIn([d.root], None, op.target);
      if op.target !in parents || parents[op.target].id != op.parentId || parents[op.target].hash != op.parentHash {
        ok := false;
      }
      if op.parentId !in authorized {
        ok := false;
      }
      var errors;
      inserted, errors := CheckInserted([op.node], 0, d.root.location.file, d.root.location.end, limits, {});
      if errors != 0 {
        ok := false;
      } else {
        assert inserted == Ids([op.node]);
        NodesKeys(d.root, nodes);
        if inserted * nodes.Keys != {} || inserted * newIds != {} {
          ok := false;
        }
        NewIdsApart(ops, i, inserted);
      }
    }
  }

  lemma {:induction false} NodesKeys(root: Node, nodes: map<string, Node>)
    requires forall id :: Lookup(nodes, id) == NodeOf([root], id)
    ensures nodes.Keys == Ids([root])
  {
    forall id
      ensures id in nodes.Keys <==> id in Ids([root])
    {
      NodeOfIff([root], id);
      assert Lookup(nodes, id) == NodeOf([root], id);
    }
  }

  lemma {:induction false} NewIdsApart(ops: seq<Operation>, i: nat, inserted: set<string>)
    requires i <= |ops|
    ensures inserted * InsertedUpTo(ops, i) == {} <==> forall j | 0 <= j < i :: Ids(ops[j].Inserted()) !! inserted
  {
    if j :| 0 <= j < i && !(Ids(ops[j].Inserted()) !! inserted) {
      var x :| x in Ids(ops[j].Inserted()) && x in inserted;
      assert x in inserted * InsertedUpTo(ops, i);
    }
  }

  function Targets(ops: seq<Operation>): seq<string> {
    seq(|ops|, i requires 0 <= i < |ops| => ops[i].target)
  }

  method CheckOperations(d: Document, ops: seq<Operation>, authorized: set<string>, limits: Limits)
    returns (errors: seq<nat>, affected: seq<string>)
    requires Unique([d.root])
    ensures errors == [] <==> OperationsOk(d, ops, authorized, limits)
    ensures errors == [] ==> affected == Targets(ops)
  {
    var nodes, parents, repeated := Index([d.root], None, map[], map[]);
    forall id
      ensures Lookup(nodes, id) == NodeOf([d.root], id) && Lookup(parents, id) == ParentIn([d.root], None, id)
    {
    }
    errors, affected := [], [];
    var mutated, newIds := {}, {};
    var i := 0;
    while i < |ops|
      invariant 0 <= i <= |ops|
      invariant errors == [] ==> mutated == (set j | 0 <= j < i :: ops[j].target)
      invariant errors == [] ==> newIds == InsertedUpTo(ops, i) && affected == Targets(ops[..i])
      invariant errors == [] ==> forall k | 0 <= k < i :: OperationOk(d, ops, authorized, limits, k)
      invariant errors != [] ==> exists k | 0 <= k < i :: !OperationOk(d, ops, authorized, limits, k)
    {
      var ok, inserted := CheckOperation(d, ops, i, authorized, limits, nodes, parents, mutated, newIds);
      if ops[i].target in nodes {
        affected := affected + [ops[i].target];
        mutated := mutated + {ops[i].target};
      }
      newIds := newIds + inserted;
      if !ok {
        errors := errors + [i];
      }
      i := i + 1;
    }
    assert ops[..|ops|] == ops;
  }

  // ---- What validation establishes ----

  lemma {:induction false} OnlyTheRootHasNoParent(f: seq<Node>, parent: Option<Parent>, id: string)
    requires parent.Some? && Find(f, parent, id).Some?
    ensures Find(f, parent, id).value.parent.Some?
  {
    if f[0].id != id {
      var below := Some(Parent(f[0].id, f[0].hash));
      if Find(f[0].children, below, id).Some? {
        OnlyTheRootHasNoParent(f[0].children, below, id);
      } else {
        OnlyTheRootHasNoParent(f[1..], parent, id);
      }
    }
  }

  lemma {:induction false} OperationPasses(d: Document, ops: seq<Operation>, authorized: set<string>, limits: Limits, i: nat)
    requires Unique([d.root]) && i < |ops| && OperationOk(d, ops, authorized, limits, i)
    ensures Check([d.root], ops[i]).Ok?
  {
    var f, op := [d.root], ops[i];
    IndexAgreesWithFind(f, None, op.target);
    if op.Delete? {
      assert f[1..] == [] && Find([], None, op.target) == None;
      OnlyTheRootHasNoParent(f[0].children, Some(Parent(d.root.id, d.root.hash)), op.target);
    }
  }

  /** Validated operations form a plan, and each passes its checks on the base tree. */
  lemma {:induction false} ValidatedIsPlan(d: Document, ops: seq<Operation>, authorized: set<string>, limits: Limits)
    requires Unique([d.root]) && OperationsOk(d, ops, authorized, limits)
    ensures Plan([d.root], ops)
    ensures forall i | 0 <= i < |ops| :: Check([d.root], ops[i]).Ok?
  {
    forall i | 0 <= i < |ops|
      ensures Check([d.root], ops[i]).Ok? && ops[i].target in Ids([d.root])
      ensures Unique(ops[i].Inserted()) && Ids(ops[i].Inserted()) !! Ids([d.root])
    {
      assert OperationOk(d, ops, authorized, limits, i);
      OperationPasses(d, ops, authorized, limits, i);
    }
    forall i, j | 0 <= i < j < |ops|
      ensures ops[i].target != ops[j].target && Ids(ops[i].Inserted()) !! Ids(ops[j].Inserted())
    {
      assert OperationOk(d, ops, authorized, limits, j);
    }
  }

  /** No operation's target lies below a node that an earlier operation deletes. */
  predicate NoneBuried(d: Document, ops: seq<Operation>) {
    forall i, j | 0 <= j < i < |ops| && ops[j].Delete? :: ops[i].target !in Below([d.root], ops[j].target)
  }

  // ---- When the patched document is valid ----

  predicate FieldsOk(f: seq<Node>) {
    f == [] || (FieldsValid(f[0].attributes) && FieldsValid(f[0].metadata) && FieldsOk(f[0].children) && FieldsOk(f[1..]))
  }

  predicate ChangesValid(changes: map<string, Json>) {
    forall k | k in changes && changes[k] != JNull :: NonBlank(k) && JsonValid(changes[k])
  }

  /** No key is blank in what the operation sets or brings. */
  predicate PayloadValid(op: Operation) {
    (op.Update? ==> ChangesValid(op.changes)) && FieldsOk(op.Inserted())
  }

  lemma {:induction false} ChangedValidIff(attributes: map<string, Json>, changes: map<string, Json>)
    requires FieldsValid(attributes)
    ensures FieldsValid(Changed(attributes, changes)) <==> ChangesValid(changes)
  {
    var changed := Changed(attributes, changes);
    if FieldsValid(changed) {
      assert forall k | k in changes && changes[k] != JNull :: k in changed;
    }
  }

  lemma {:induction false} InsertedValidIff(f: seq<Node>, depth: nat, file: string, end: int, limits: Limits)
    requires InsertedOk(f, depth, file, end, limits)
    ensures ForestValid(f, file, end) <==> FieldsOk(f)
  {
    if f != [] {
      InsertedValidIff(f[0].children, depth + 1, file, end, limits);
      InsertedValidIff(f[1..], depth, file, end, limits);
    }
  }

  /** Inserted trees are valid as soon as their fields are. */
  predicate InsertsPlaced(m: map<string, Operation>, file: string, end: int) {
    forall k | k in m :: ForestValid(m[k].Inserted(), file, end) <==> FieldsOk(m[k].Inserted())
  }

  lemma {:induction false} OneValid(t: Node, file: string, end: int)
    ensures ForestValid([t], file, end) <==> NodeValid(t, file, end) && ForestValid(t.children, file, end)
  {
    assert [t][1..] == [];
  }

  lemma {:induction false} OutcomeValidIff(op: Operation, t: Node, file: string, end: int)
    requires NodeValid(t, file, end)
    requires ForestValid(op.Inserted(), file, end) <==> FieldsOk(op.Inserted())
    ensures ForestValid(Outcome(op, t), file, end)
       <==> op.Delete? || (PayloadValid(op) && ForestValid(t.children, file, end))
  {
    OneValid(t, file, end);
    if op.Inserts() {
      assert [op.node, t] == [op.node] + [t] && [t, op.node] == [t] + [op.node];
      ForestValidAppend([op.node], [t], file, end);
      ForestValidAppend([t], [op.node], file, end);
    } else if !op.Delete? {
      OneValid(Outcome(op, t)[0], file, end);
      if op.Update? {
        ChangedValidIff(t.attributes, op.changes);
      }
    }
  }

  /** The payloads that reach the result are valid: those below a deleted node do not. */
  predicate PayloadsShow(f: seq<Node>, m: map<string, Operation>) {
    f == [] || (
      && ((f[0].id in m && m[f[0].id].Delete?)
          || ((f[0].id in m ==> PayloadValid(m[f[0].id])) && PayloadsShow(f[0].children, m)))
      && PayloadsShow(f[1..], m))
  }

  lemma {:induction false} RewriteValidIff(f: seq<Node>, m: map<string, Operation>, file: string, end: int)
    requires ForestValid(f, file, end) && InsertsPlaced(m, file, end)
    ensures ForestValid(Rewrite(f, m), file, end) <==> PayloadsShow(f, m)
  {
    if f != [] {
      var t := f[0].(children := Rewrite(f[0].children, m));
      RewriteValidIff(f[0].children, m, file, end);
      RewriteValidIff(f[1..], m, file, end);
      ForestValidAppend(Head(f, m), Rewrite(f[1..], m), file, end);
      OneValid(t, file, end);
      if t.id in m {
        OutcomeValidIff(m[t.id], t, file, end);
      }
    }
  }

  /** The target of every operation is below a deleted node, or its payload is valid. */
  predicate PayloadsMatter(f: seq<Node>, m: map<string, Operation>) {
    forall k | k in m && k in Ids(f) :: PayloadValid(m[k]) || Buried(f, m, k)
  }

  lemma {:induction false} NotBuriedHere(f: seq<Node>, m: map<string, Operation>)
    requires Unique(f) && f != []
    ensures !Buried(f, m, f[0].id)
  {
    BuriedHere(f, m, f[0].id);
    if a :| a in m && m[a].Delete? && f[0].id in Below(f[1..], a) {
      BelowIds(f[1..], a);
    }
  }

  lemma {:induction false} PayloadsMatterHere(f: seq<Node>, m: map<string, Operation>)
    requires Unique(f) && f != []
    ensures PayloadsMatter(f, m) <==>
      (f[0].id in m ==> PayloadValid(m[f[0].id]))
      && ((f[0].id in m && m[f[0].id].Delete?) || PayloadsMatter(f[0].children, m))
      && PayloadsMatter(f[1..], m)
  {
    NotBuriedHere(f, m);
    forall k | k in m && k in Ids(f) && k != f[0].id
      ensures k in Ids(f[0].children) ==>
        (Buried(f, m, k) <==> (f[0].id in m && m[f[0].id].Delete?) || Buried(f[0].children, m, k))
      ensures k !in Ids(f[0].children) ==> (Buried(f, m, k) <==> Buried(f[1..], m, k))
    {
      BuriedHere(f, m, k);
    }
  }

  lemma {:induction false} PayloadsShowIff(f: seq<Node>, m: map<string, Operation>)
    requires Unique(f)
    ensures PayloadsShow(f, m) <==> PayloadsMatter(f, m)
  {
    if f != [] {
      PayloadsShowIff(f[0].children, m);
      PayloadsShowIff(f[1..], m);
      PayloadsMatterHere(f, m);
    }
  }

  lemma {:induction false} InsertsOfPlan(d: Document, ops: seq<Operation>, authorized: set<string>, limits: Limits)
    requires OperationsOk(d, ops, authorized, limits)
    ensures InsertsPlaced(ByTarget(ops), d.root.location.file, d.root.location.end)
  {
    var m := ByTarget(ops);
    forall k | k in m
      ensures ForestValid(m[k].Inserted(), d.root.location.file, d.root.location.end) <==> FieldsOk(m[k].Inserted())
    {
      var i := ByTargetEntry(ops, k);
      assert OperationOk(d, ops, authorized, limits, i);
      if m[k].Inserts() {
        InsertedValidIff([m[k].node], 0, d.root.location.file, d.root.location.end, limits);
      }
    }
  }

  lemma {:induction false} RewrittenRoot(d: Document, ops: seq<Operation>)
    requires Plan([d.root], ops) && ApplyAll([d.root], ops).Ok?
    ensures |Rewrite([d.root], ByTarget(ops))| == 1
    ensures var r := Rewrite([d.root], ByTarget(ops))[0];
      r.kind == d.root.kind && r.location == d.root.location && r.id == d.root.id
  {
    var m := ByTarget(ops);
    SequentialIsSimultaneous([d.root], ops);
    ApplyAllKeepsRoot([d.root], ops);
    assert [d.root][1..] == [];
    assert Rewrite([d.root], m) == Head([d.root], m);
  }

  lemma {:induction false} PatchedForest(d: Document, ops: seq<Operation>, authorized: set<string>, limits: Limits)
    requires Valid(d) && OperationsOk(d, ops, authorized, limits) && Plan([d.root], ops)
    ensures var forest := Rehashed(Rewrite([d.root], ByTarget(ops)));
      && Unique(forest) && Hashed(forest)
      && (ForestValid(forest, d.root.location.file, d.root.location.end) <==> PayloadsMatter([d.root], ByTarget(ops)))
  {
    var m := ByTarget(ops);
    ByTargetPlanned([d.root], ops);
    InsertsOfPlan(d, ops, authorized, limits);
    RewriteValidIff([d.root], m, d.root.location.file, d.root.location.end);
    PayloadsShowIff([d.root], m);
    RehashedValid(Rewrite([d.root], m), d.root.location.file, d.root.location.end);
    RewriteUnique([d.root], Ids([d.root]), m);
    RehashedIsHashed(Rewrite([d.root], m));
  }

  lemma {:induction false} PatchedIsValidIff(d: Document, ops: seq<Operation>, authorized: set<string>, limits: Limits)
    requires Valid(d) && OperationsOk(d, ops, authorized, limits) && Plan([d.root], ops)
    requires ApplyAll([d.root], ops).Ok?
    ensures |ApplyAll([d.root], ops).value| == 1
    ensures Valid(RehashDocument(d.(root := ApplyAll([d.root], ops).value[0]))) <==> PayloadsMatter([d.root], ByTarget(ops))
  {
    SequentialIsSimultaneous([d.root], ops);
    RewrittenRoot(d, ops);
    PatchedForest(d, ops, authorized, limits);
    var forest := Rewrite([d.root], ByTarget(ops));
    assert forest == [forest[0]];
    RehashedOne(forest[0]);
    RootOfRehashed(forest[0]);
  }

  /** Each payload is valid, or its target lies below a node the patch deletes. */
  predicate PayloadsReach(d: Document, ops: seq<Operation>) {
    forall i | 0 <= i < |ops| ::
      PayloadValid(ops[i]) || exists j | 0 <= j < |ops| :: ops[j].Delete? && ops[i].target in Below([d.root], ops[j].target)
  }

  lemma {:induction false} BuriedByAny(f: seq<Node>, ops: seq<Operation>, id: string)
    requires Plan(f, ops)
    ensures Buried(f, ByTarget(ops), id) <==> exists j | 0 <= j < |ops| :: ops[j].Delete? && id in Below(f, ops[j].target)
  {
    var m := ByTarget(ops);
    if Buried(f, m, id) {
      var a :| a in m && m[a].Delete? && id in Below(f, a);
      var j := ByTargetEntry(ops, a);
    }
    if j :| 0 <= j < |ops| && ops[j].Delete? && id in Below(f, ops[j].target) {
      ByTargetHas(ops, j);
    }
  }

  lemma {:induction false} PayloadsReachIff(d: Document, ops: seq<Operation>)
    requires Plan([d.root], ops)
    ensures PayloadsReach(d, ops) <==> PayloadsMatter([d.root], ByTarget(ops))
  {
    var f, m := [d.root], ByTarget(ops);
    forall i | 0 <= i < |ops|
      ensures ops[i].target in m && m[ops[i].target] == ops[i]
      ensures Buried(f, m, ops[i].target) <==>
        exists j | 0 <= j < |ops| :: ops[j].Delete? && ops[i].target in Below(f, ops[j].target)
    {
      ByTargetHas(ops, i);
      BuriedByAny(f, ops, ops[i].target);
    }
    if PayloadsReach(d, ops) {
      forall k | k in m && k in Ids(f)
        ensures PayloadValid(m[k]) || Buried(f, m, k)
      {
        var i := ByTargetEntry(ops, k);
      }
    }
  }

  /** A validated patch is applied successfully exactly when it is a valid set under the
      default limits, no operation works below a node that an earlier one deleted, and no
      blank key it brings reaches the result. */
  lemma {:induction false} ValidatedAppliesIff(d: Document, p: PatchSet, authorized: set<string>, limits: Limits)
    requires Valid(d) && OperationsOk(d, p.operations, authorized, limits)
    requires d.documentId == p.resourceId && d.versionId == p.baseVersionId
    ensures ApplyPatch(d, p).Ok?
       <==> ValidSet(p, DEFAULT_LIMITS) && NoneBuried(d, p.operations) && PayloadsReach(d, p.operations)
  {
    ValidatedIsPlan(d, p.operations, authorized, limits);
    SequentialIsSimultaneous([d.root], p.operations);
    AdmissibleIffNoneBuried(d, p.operations);
    PayloadsReachIff(d, p.operations);
    if ApplyAll([d.root], p.operations).Ok? {
      PatchedIsValidIff(d, p.operations, authorized, limits);
    }
  }

  lemma {:induction false} AdmissibleIffNoneBuried(d: Document, ops: seq<Operation>)
    requires forall i | 0 <= i < |ops| :: Check([d.root], ops[i]).Ok?
    ensures AllAdmissible([d.root], ops) <==> NoneBuried(d, ops)
  {
    if AllAdmissible([d.root], ops) {
      forall i, j | 0 <= j < i < |ops| && ops[j].Delete?
        ensures ops[i].target !in Below([d.root], ops[j].target)
      {
        assert Admissible([d.root], ops, i);
      }
    }
  }

  // ---- Order can matter: a deleted parent hides its child ----

  function Freshly(id: string, kind: NodeType, children: seq<Node>): Node {
    var t := Node(id, kind, map[], "", children, Location("f", 0, 0, 0, 0), [], map[], NoHash);
    t.(hash := HashNode(t))
  }

  const CHILD := Freshly("c", ParagraphNode, [])
  const PARENT := Freshly("p", ListNode, [CHILD])
  const ROOT := Freshly("r", DocumentRoot, [PARENT])
  const REPLACE_CHILD := Replace("c", CHILD.hash, "new")
  const DELETE_PARENT := Delete("p", PARENT.hash)

  function Family(): Document {
    RehashDocument(Document("d", "v", ROOT, "markdown", map[], NoDocumentHash, SCHEMA_VERSION))
  }

  function FamilyPatch(operations: seq<Operation>): PatchSet {
    PatchSet("d", "v", operations, [], "why")
  }

  /** A forest of one tree, one level down. */
  lemma {:induction false} Single(t: Node, a: string)
    ensures Ids([t]) == {t.id} + Ids(t.children)
    ensures Unique([t]) <==> t.id !in Ids(t.children) && Unique(t.children)
    ensures Hashed([t]) <==> t.hash == HashNode(t) && Hashed(t.children)
    ensures Below([t], a) == if t.id == a then Ids(t.children) else Below(t.children, a)
    ensures NodeOf([t], a) == if t.id == a then Some(t) else NodeOf(t.children, a)
  {
    assert [t][1..] == [] && Ids([]) == {} && Below([], a) == {} && NodeOf([], a) == None;
  }

  lemma {:induction false} NamesShow()
    ensures forall s | s in ["c", "p", "r", "d", "v", "f"] :: NonBlank(s)
  {
    forall s | s in ["c", "p", "r", "d", "v", "f"]
      ensures NonBlank(s)
    {
      assert s[0] !in " \t\n\r";
    }
  }

  lemma {:induction false} FreshlyValid(id: string, kind: NodeType, children: seq<Node>)
    requires NonBlank(id) && ForestValid(children, "f", 0)
    ensures ForestValid([Freshly(id, kind, children)], "f", 0)
  {
    OneValid(Freshly(id, kind, children), "f", 0);
  }

  lemma {:induction false} FamilyTree()
    ensures Ids([ROOT]) == {"r", "p", "c"} && Unique([ROOT]) && Hashed([ROOT]) && ForestValid([ROOT], "f", 0)
    ensures Below([ROOT], "p") == {"c"}
    ensures NodeOf([ROOT], "c") == Some(CHILD) && NodeOf([ROOT], "p") == Some(PARENT)
  {
    NamesShow();
    forall a | a in ["c", "p"]
      ensures NodeOf([ROOT], a) == Some(if a == "c" then CHILD else PARENT)
    {
      Single(CHILD, a);
      Single(PARENT, a);
      Single(ROOT, a);
    }
    Single(CHILD, "p");
    Single(PARENT, "p");
    Single(ROOT, "p");
    FreshlyValid("c", ParagraphNode, []);
    FreshlyValid("p", ListNode, [CHILD]);
    FreshlyValid("r", DocumentRoot, [PARENT]);
  }

  lemma {:induction false} FamilyIsValid()
    ensures Valid(Family()) && Family().root == ROOT
  {
    FamilyTree();
    RehashedKeepsHashed([ROOT]);
    NamesShow();
  }

  const GOOD_ORDER := [REPLACE_CHILD, DELETE_PARENT]
  const BAD_ORDER := [DELETE_PARENT, REPLACE_CHILD]

  lemma {:induction false} FamilyValidates()
    ensures OperationsOk(Family(), GOOD_ORDER, {"c", "p"}, DEFAULT_LIMITS)
    ensures OperationsOk(Family(), BAD_ORDER, {"c", "p"}, DEFAULT_LIMITS)
  {
    FamilyTree();
    FamilyIsValid();
    assert OperationOk(Family(), GOOD_ORDER, {"c", "p"}, DEFAULT_LIMITS, 0);
    assert OperationOk(Family(), GOOD_ORDER, {"c", "p"}, DEFAULT_LIMITS, 1);
    assert OperationOk(Family(), BAD_ORDER, {"c", "p"}, DEFAULT_LIMITS, 0);
    assert OperationOk(Family(), BAD_ORDER, {"c", "p"}, DEFAULT_LIMITS, 1);
  }

  lemma {:induction false} OrdersDiffer()
    ensures NoneBuried(Family(), GOOD_ORDER) && !NoneBuried(Family(), BAD_ORDER)
    ensures PayloadsReach(Family(), GOOD_ORDER)
  {
    FamilyTree();
    FamilyIsValid();
    assert PayloadValid(REPLACE_CHILD) && PayloadValid(DELETE_PARENT);
    assert BAD_ORDER[0].Delete? && BAD_ORDER[1].target in Below([Family().root], BAD_ORDER[0].target);
  }

  lemma {:induction false} FamilySets(ops: seq<Operation>)
    requires ops == GOOD_ORDER || ops == BAD_ORDER
    ensures ValidSet(FamilyPatch(ops), DEFAULT_LIMITS)
  {
    NamesShow();
    assert "why"[0] !in " \t\n\r";
    assert TextBytes("new"[1..][1..]) == 1 && TextBytes("new"[1..]) == 2 && TextBytes("new") == 3;
  }

  /** Replacing a child and deleting its parent: both orders pass the checks on the operations
      of a valid document, and only one of them can be applied. */
  lemma {:induction false} ParentDeletedFirst()
    ensures Valid(Family())
    ensures OperationsOk(Family(), GOOD_ORDER, {"c", "p"}, DEFAULT_LIMITS)
    ensures OperationsOk(Family(), BAD_ORDER, {"c", "p"}, DEFAULT_LIMITS)
    ensures ValidSet(FamilyPatch(GOOD_ORDER), DEFAULT_LIMITS) && ValidSet(FamilyPatch(BAD_ORDER), DEFAULT_LIMITS)
    ensures ApplyPatch(Family(), FamilyPatch(GOOD_ORDER)).Ok?
    ensures ApplyPatch(Family(), FamilyPatch(BAD_ORDER)).Failed?
  {
    FamilyIsValid();
    FamilyValidates();
    OrdersDiffer();
    FamilySets(GOOD_ORDER);
    FamilySets(BAD_ORDER);
    ValidatedAppliesIff(Family(), FamilyPatch(GOOD_ORDER), {"c", "p"}, DEFAULT_LIMITS);
    ValidatedAppliesIff(Family(), FamilyPatch(BAD_ORDER), {"c", "p"}, DEFAULT_LIMITS);
  }
}
