/** Patching as it is really done: on a cloned tree of mutable nodes, in place. */
module PatchHeap {
  import opened Options
  import opened JsonValues
  import opened DocumentTree
  import opened PatchTree

  class HeapNode {
    var id: string
    var kind: NodeType
    var attributes: map<string, Json>
    var content: string
    var children: seq<HeapNode>
    var location: Location
    var pages: seq<PageMapping>
    var metadata: map<string, Json>
    var hash: Hash

    constructor (t: Node, children: seq<HeapNode>)
      ensures Fields() == t.(children := []) && this.children == children
    {
      id, kind, attributes, content := t.id, t.kind, t.attributes, t.content;
      location, pages, metadata, hash := t.location, t.pages, t.metadata, t.hash;
      this.children := children;
    }

    /** The node without its children. */
    function Fields(): Node
      reads this
    {
      Node(id, kind, attributes, content, [], location, pages, metadata, hash)
    }
  }

  /** The objects of a tree in its shape. */
  datatype Skeleton = Skeleton(obj: HeapNode, kids: seq<Skeleton>)

  function Objs(f: seq<Skeleton>): set<HeapNode> {
    if f == [] then {} else {f[0].obj} + Objs(f[0].kids) + Objs(f[1..])
  }

  function Tops(f: seq<Skeleton>): seq<HeapNode> {
    if f == [] then [] else [f[0].obj] + Tops(f[1..])
  }

  /** No object occurs twice. */
  ghost predicate Apart(f: seq<Skeleton>) {
    f == [] || (
      && f[0].obj !in Objs(f[0].kids)
      && f[0].obj !in Objs(f[1..])
      && Objs(f[0].kids) !! Objs(f[1..])
      && Apart(f[0].kids)
      && Apart(f[1..]))
  }

  /** The children fields follow the shape. */
  ghost predicate Linked(f: seq<Skeleton>)
    reads Objs(f)
  {
    f == [] || (f[0].obj.children == Tops(f[0].kids) && Linked(f[0].kids) && Linked(f[1..]))
  }

  /** The tree the objects stand for. */
  ghost function Abs(f: seq<Skeleton>): seq<Node>
    reads Objs(f)
  {
    if f == [] then [] else [f[0].obj.Fields().(children := Abs(f[0].kids))] + Abs(f[1..])
  }

  lemma {:induction false} TopsAppend(a: seq<Skeleton>, b: seq<Skeleton>)
    ensures Tops(a + b) == Tops(a) + Tops(b)
  {
    if a == [] {
      assert a + b == b;
    } else {
      assert (a + b)[1..] == a[1..] + b;
      TopsAppend(a[1..], b);
    }
  }

  lemma {:induction false} ObjsAppend(a: seq<Skeleton>, b: seq<Skeleton>)
    ensures Objs(a + b) == Objs(a) + Objs(b)
  {
    if a == [] {
      assert a + b == b;
    } else {
      assert (a + b)[1..] == a[1..] + b;
      ObjsAppend(a[1..], b);
    }
  }

  lemma {:induction false} ApartAppend(a: seq<Skeleton>, b: seq<Skeleton>)
    ensures Apart(a + b) <==> Apart(a) && Apart(b) && Objs(a) !! Objs(b)
  {
    if a == [] {
      assert a + b == b;
    } else {
      assert (a + b)[1..] == a[1..] + b;
      ObjsAppend(a[1..], b);
      ApartAppend(a[1..], b);
    }
  }

  lemma {:induction false} AbsAppend(a: seq<Skeleton>, b: seq<Skeleton>)
    ensures Abs(a + b) == Abs(a) + Abs(b)
    ensures Linked(a + b) <==> Linked(a) && Linked(b)
  {
    if a == [] {
      assert a + b == b;
    } else {
      assert (a + b)[1..] == a[1..] + b;
      AbsAppend(a[1..], b);
    }
  }

  lemma {:induction false} AbsOf(head: Skeleton, g: seq<Skeleton>)
    ensures Abs([head] + g) == [head.obj.Fields().(children := Abs(head.kids))] + Abs(g)
    ensures Tops([head] + g) == [head.obj] + Tops(g)
    ensures Linked([head] + g) <==> head.obj.children == Tops(head.kids) && Linked(head.kids) && Linked(g)
  {
    assert ([head] + g)[1..] == g;
  }

  lemma {:induction false} TopsLength(f: seq<Skeleton>)
    ensures |Tops(f)| == |f| && forall i | 0 <= i < |f| :: Tops(f)[i] == f[i].obj
  {
    if f != [] {
      TopsLength(f[1..]);
    }
  }

  lemma {:induction false} AllAllocated(f: seq<Skeleton>)
    ensures forall o | o in Objs(f) :: allocated(o)
  {
    if f != [] {
      AllAllocated(f[0].kids);
      AllAllocated(f[1..]);
    }
  }

  // ---- Building and cloning ----

  /** Trees made of new objects only. */
  ghost predicate Grown(f: seq<Skeleton>, objs: seq<HeapNode>, values: seq<Node>)
    reads Objs(f)
  {
    Apart(f) && Linked(f) && objs == Tops(f) && Abs(f) == values
  }

  lemma {:induction false} GrowFirst(sk: Skeleton, value: Node, f: seq<Skeleton>, objs: seq<HeapNode>, values: seq<Node>)
    requires Grown([sk], [sk.obj], [value]) && Grown(f, objs, values) && Objs([sk]) !! Objs(f)
    ensures Grown([sk] + f, [sk.obj] + objs, [value] + values)
    ensures Objs([sk] + f) == Objs([sk]) + Objs(f)
  {
    ObjsAppend([sk], f);
    TopsAppend([sk], f);
    ApartAppend([sk], f);
    AbsAppend([sk], f);
  }

  lemma {:induction false} Rooted(sk: Skeleton, kids: seq<HeapNode>, value: Node)
    requires Grown(sk.kids, kids, value.children) && sk.obj.children == kids && sk.obj !in Objs(sk.kids)
    requires sk.obj.Fields() == value.(children := [])
    ensures Grown([sk], [sk.obj], [value])
  {
    assert [sk][1..] == [];
  }

  twostate predicate Same(s: set<HeapNode>)
    reads s
  {
    forall o | o in s :: o.Fields() == old(o.Fields()) && o.children == old(o.children)
  }

  /** Trees whose objects are not touched stand for the same values. */
  twostate lemma {:induction false} Untouched(f: seq<Skeleton>)
    requires Same(Objs(f))
    ensures Linked(f) == old(Linked(f)) && Abs(f) == old(Abs(f))
  {
    if f != [] {
      Untouched(f[0].kids);
      Untouched(f[1..]);
    }
  }

  /** New objects for a value. */
  method Build(t: Node) returns (obj: HeapNode, ghost sk: Skeleton)
    ensures sk.obj == obj && fresh(Objs([sk])) && Grown([sk], [obj], [t])
    decreases t, 1
  {
    var kids, skels := BuildAll(t.children);
    AllAllocated(skels);
    label Built:
    obj := new HeapNode(t, kids);
    sk := Skeleton(obj, skels);
    Untouched@Built(skels);
    Rooted(sk, kids, t);
  }

  method BuildAll(ts: seq<Node>) returns (objs: seq<HeapNode>, ghost f: seq<Skeleton>)
    ensures fresh(Objs(f)) && Grown(f, objs, ts)
    decreases ts, 0
  {
    if ts == [] {
      return [], [];
    }
    var obj, sk := Build(ts[0]);
    AllAllocated([sk]);
    label First:
    var rest, skels := BuildAll(ts[1..]);
    Untouched@First([sk]);
    GrowFirst(sk, ts[0], skels, rest, ts[1..]);
    assert [ts[0]] + ts[1..] == ts;
    objs, f := [obj] + rest, [sk] + skels;
  }

  /** A new object with the fields of another, over these children. */
  method CopyFields(node: HeapNode, kids: seq<HeapNode>) returns (copy: HeapNode)
    ensures fresh(copy) && copy.Fields() == node.Fields() && copy.children == kids
  {
    copy := new HeapNode(Node(node.id, node.kind, node.attributes, node.content, [], node.location, node.pages,
                              node.metadata, node.hash), kids);
  }

  /** A private copy; shared sub-objects are copied once for each place they occur. */
  method Clone(node: HeapNode, ghost source: Skeleton) returns (copy: HeapNode, ghost sk: Skeleton)
    requires source.obj == node && Linked([source])
    ensures Abs([source]) == old(Abs([source])) && Linked([source])
    ensures sk.obj == copy && fresh(Objs([sk])) && Grown([sk], [copy], Abs([source]))
    decreases source, 1
  {
    assert [source][1..] == [];
    AllAllocated([source]);
    var kids, skels := CloneAll(node.children, source.kids);
    Untouched([source]);
    AllAllocated([source]);
    AllAllocated(skels);
    ghost var value := node.Fields().(children := Abs(source.kids));
    assert Abs([source]) == [value];
    label Copied:
    copy := CopyFields(node, kids);
    sk := Skeleton(copy, skels);
    Untouched@Copied(skels);
    Untouched@Copied([source]);
    Rooted(sk, kids, value);
  }

  method CloneAll(nodes: seq<HeapNode>, ghost sources: seq<Skeleton>)
    returns (copies: seq<HeapNode>, ghost f: seq<Skeleton>)
    requires nodes == Tops(sources) && Linked(sources)
    ensures Abs(sources) == old(Abs(sources)) && Linked(sources)
    ensures fresh(Objs(f)) && Grown(f, copies, Abs(sources))
    decreases sources, 0
  {
    if nodes == [] {
      TopsLength(sources);
      return [], [];
    }
    TopsLength(sources);
    assert [sources[0]][1..] == [];
    AllAllocated(sources);
    ghost var value := Abs([sources[0]])[0];
    var copy, sk := Clone(nodes[0], sources[0]);
    Untouched(sources);
    AllAllocated(sources);
    AllAllocated([sk]);
    label First:
    var rest, skels := CloneAll(nodes[1..], sources[1..]);
    Untouched@First([sk]);
    Untouched@First(sources);
    GrowFirst(sk, value, skels, rest, Abs(sources[1..]));
    assert Abs(sources) == [value] + Abs(sources[1..]);
    copies, f := [copy] + rest, [sk] + skels;
  }

  // ---- Locating ----

  datatype Place = Place(node: HeapNode, parent: HeapNode?, index: int)

  /** Where the first object with the identifier is: its parent object and position. */
  ghost function PlaceOf(f: seq<Skeleton>, parent: HeapNode?, index: int, target: string): Option<Place>
    reads Objs(f)
  {
    if f == [] then None
    else if f[0].obj.id == target then Some(Place(f[0].obj, parent, index))
    else OrElse(PlaceOf(f[0].kids, f[0].obj, 0, target), PlaceOf(f[1..], parent, index + 1, target))
  }

  /** The walk itself: it only reads. */
  function Visit(nodes: seq<HeapNode>, parent: HeapNode?, index: int, target: string, ghost f: seq<Skeleton>)
    : (place: Option<Place>)
    requires nodes == Tops(f) && Linked(f)
    reads Objs(f)
    ensures place == PlaceOf(f, parent, index, target)
    decreases f
  {
    if nodes == [] then None
    else if nodes[0].id == target then Some(Place(nodes[0], parent, index))
    else
      var below := Visit(nodes[0].children, nodes[0], 0, target, f[0].kids);
      if below.Some? then below else Visit(nodes[1..], parent, index + 1, target, f[1..])
  }

  lemma {:induction false} PlaceIsFound(f: seq<Skeleton>, parent: HeapNode?, index: int, target: string)
    ensures PlaceOf(f, parent, index, target).Some? <==> target in Ids(Abs(f))
  {
    if f != [] {
      PlaceIsFound(f[0].kids, f[0].obj, 0, target);
      PlaceIsFound(f[1..], parent, index + 1, target);
    }
  }

  lemma {:induction false} PlaceIsInside(f: seq<Skeleton>, parent: HeapNode?, index: int, target: string)
    requires PlaceOf(f, parent, index, target).Some?
    ensures var place := PlaceOf(f, parent, index, target).value;
      place.node in Objs(f) && place.node.id == target && (place.parent == parent || place.parent in Objs(f))
  {
    if f[0].obj.id != target {
      if PlaceOf(f[0].kids, f[0].obj, 0, target).Some? {
        PlaceIsInside(f[0].kids, f[0].obj, 0, target);
      } else {
        PlaceIsInside(f[1..], parent, index + 1, target);
      }
    }
  }

  /** What the checks compare: the located object and its parent against the value's lookup. */
  lemma {:induction false} PlaceAgrees(f: seq<Skeleton>, parent: HeapNode?, index: int, target: string)
    ensures Find(Abs(f), if parent == null then None else Some(Parent(parent.id, parent.hash)), target)
         == (var place := PlaceOf(f, parent, index, target);
             if place.None? then None
             else Some(Found(place.value.node.hash,
                             if place.value.parent == null then None
                             else Some(Parent(place.value.parent.id, place.value.parent.hash)))))
  {
    if f != [] {
      PlaceAgrees(f[0].kids, f[0].obj, 0, target);
      PlaceAgrees(f[1..], parent, index + 1, target);
    }
  }

  // ---- Editing in place ----

  /** The located object alone. */
  ghost function Hit(f: seq<Skeleton>, target: string): Option<HeapNode>
    reads Objs(f)
  {
    if f == [] then None
    else if f[0].obj.id == target then Some(f[0].obj)
    else OrElse(Hit(f[0].kids, target), Hit(f[1..], target))
  }

  lemma {:induction false} HitIsFound(f: seq<Skeleton>, target: string)
    ensures Hit(f, target).Some? <==> target in Ids(Abs(f))
    ensures Hit(f, target).Some? ==> Hit(f, target).value in Objs(f)
  {
    if f != [] {
      HitIsFound(f[0].kids, target);
      HitIsFound(f[1..], target);
    }
  }

  lemma {:induction false} HitIsPlace(f: seq<Skeleton>, parent: HeapNode?, index: int, target: string)
    ensures PlaceOf(f, parent, index, target).Some? <==> Hit(f, target).Some?
    ensures Hit(f, target).Some? ==> PlaceOf(f, parent, index, target).value.node == Hit(f, target).value
  {
    if f != [] {
      HitIsPlace(f[0].kids, f[0].obj, 0, target);
      HitIsPlace(f[1..], parent, index + 1, target);
    }
  }

  /** An edit and the forest it is made in. */
  datatype Edit = Edit(f: seq<Skeleton>, op: Operation)

  twostate lemma {:induction false} WasFound(e: Edit)
    ensures old(Hit(e.f, e.op.target)).Some? <==> e.op.target in Ids(old(Abs(e.f)))
    ensures old(Hit(e.f, e.op.target)).Some? ==> old(Hit(e.f, e.op.target)).value in Objs(e.f)
    decreases e.f
  {
    if e.f != [] {
      WasFound(Edit(e.f[0].kids, e.op));
      WasFound(Edit(e.f[1..], e.op));
    }
  }

  /** The located object's own fields changed as the operation says; every other object is
      as before. */
  twostate predicate FieldsEdited(e: Edit)
    reads Objs(e.f)
  {
    && Apart(e.f) && (e.op.Replace? || e.op.Update?) && old(Hit(e.f, e.op.target)).Some?
    && forall o | o in Objs(e.f) ::
         (&& old(allocated(o)) && o.children == old(o.children)
          && o.Fields() == if o == old(Hit(e.f, e.op.target)).value then Outcome(e.op, old(o.Fields()))[0]
                           else old(o.Fields()))
  }

  twostate predicate Edited(e: Edit)
    reads Objs(e.f)
  {
    Abs(e.f) == EditFirst(old(Abs(e.f)), e.op) && Linked(e.f) == old(Linked(e.f))
  }

  twostate lemma {:induction false} FieldsHere(e: Edit)
    requires FieldsEdited(e) && old(e.f[0].obj.id) == e.op.target
    ensures Edited(e)
  {
    Untouched(e.f[0].kids);
    Untouched(e.f[1..]);
  }

  twostate lemma {:induction false} FieldsBelow(e: Edit)
    requires FieldsEdited(e) && old(e.f[0].obj.id) != e.op.target
    requires old(Hit(e.f[0].kids, e.op.target)).Some?
    ensures FieldsEdited(Edit(e.f[0].kids, e.op))
    ensures Edited(Edit(e.f[0].kids, e.op)) ==> Edited(e)
  {
    WasFound(Edit(e.f[0].kids, e.op));
    Untouched(e.f[1..]);
  }

  twostate lemma {:induction false} FieldsAfter(e: Edit)
    requires FieldsEdited(e) && old(e.f[0].obj.id) != e.op.target
    requires old(Hit(e.f[0].kids, e.op.target)).None?
    ensures FieldsEdited(Edit(e.f[1..], e.op))
    ensures Edited(Edit(e.f[1..], e.op)) ==> Edited(e)
  {
    WasFound(Edit(e.f[0].kids, e.op));
    WasFound(Edit(e.f[1..], e.op));
    Untouched(e.f[0].kids);
  }

  twostate lemma {:induction false} FieldEdit(e: Edit)
    requires FieldsEdited(e)
    ensures Edited(e)
    decreases e.f
  {
    if old(e.f[0].obj.id) == e.op.target {
      FieldsHere(e);
    } else if old(Hit(e.f[0].kids, e.op.target)).Some? {
      FieldsBelow(e);
      FieldEdit(Edit(e.f[0].kids, e.op));
    } else {
      FieldsAfter(e);
      FieldEdit(Edit(e.f[1..], e.op));
    }
  }

  // ---- Editing a list of children ----

  /** The sequence after the operation on position i: the element gone, or with the
      inserted ones before or after it. */
  function Splice<T>(s: seq<T>, i: int, op: Operation, inserted: seq<T>): seq<T> {
    if !(0 <= i < |s|) then s
    else if op.InsertBefore? then s[..i] + inserted + s[i..]
    else if op.InsertAfter? then s[..i + 1] + inserted + s[i + 1..]
    else s[..i] + s[i + 1..]
  }

  /** The shape after the edit. */
  function Reshape(f: seq<Skeleton>, n: HeapNode, op: Operation, inserted: seq<Skeleton>): seq<Skeleton> {
    if f == [] then []
    else if f[0].obj == n then Splice(f, 0, op, inserted)
    else if n in Objs(f[0].kids) then [Skeleton(f[0].obj, Reshape(f[0].kids, n, op, inserted))] + f[1..]
    else [f[0]] + Reshape(f[1..], n, op, inserted)
  }

  /** A forest, the object whose children it is, the position of its first tree, and the
      object the operation is about. */
  datatype Site = Site(f: seq<Skeleton>, parent: HeapNode?, index: int, op: Operation, node: HeapNode)
  {
    ghost function Located(): Option<Place>
      reads Objs(f)
    {
      PlaceOf(f, parent, index, op.target)
    }
  }

  twostate lemma {:induction false} WasLocated(s: Site)
    ensures old(s.Located()).Some? <==> s.op.target in Ids(old(Abs(s.f)))
    decreases s.f
  {
    if s.f != [] {
      WasLocated(Site(s.f[0].kids, s.f[0].obj, 0, s.op, s.node));
      WasLocated(Site(s.f[1..], s.parent, s.index + 1, s.op, s.node));
    }
  }

  twostate lemma {:induction false} WasPlaced(s: Site)
    requires Apart(s.f) && s.parent !in Objs(s.f) && old(s.Located()).Some?
    ensures var place := old(s.Located()).value;
      && place.node in Objs(s.f)
      && (place.parent == s.parent ==> s.index <= place.index < s.index + |s.f|)
      && (place.parent != s.parent ==> place.parent in Objs(s.f))
    decreases s.f
  {
    if old(s.f[0].obj.id) != s.op.target {
      var kids := Site(s.f[0].kids, s.f[0].obj, 0, s.op, s.node);
      if old(kids.Located()).Some? {
        WasPlaced(kids);
      } else {
        WasPlaced(Site(s.f[1..], s.parent, s.index + 1, s.op, s.node));
      }
    }
  }

  lemma {:induction false} SpliceTops(f: seq<Skeleton>, i: int, op: Operation, inserted: seq<Skeleton>)
    requires 0 <= i < |f|
    ensures Tops(Splice(f, i, op, inserted)) == Splice(Tops(f), i, op, Tops(inserted))
  {
    TopsLength(f);
    TopsLength(f[..i]);
    TopsLength(f[i..]);
    TopsLength(f[..i + 1]);
    TopsLength(f[i + 1..]);
    TopsAppend(f[..i] + inserted, f[i..]);
    TopsAppend(f[..i], inserted);
    TopsAppend(f[..i + 1] + inserted, f[i + 1..]);
    TopsAppend(f[..i + 1], inserted);
    TopsAppend(f[..i], f[i + 1..]);
    assert Tops(f[..i]) == Tops(f)[..i] && Tops(f[i..]) == Tops(f)[i..];
    assert Tops(f[..i + 1]) == Tops(f)[..i + 1] && Tops(f[i + 1..]) == Tops(f)[i + 1..];
  }

  lemma {:induction false} SpliceFirst<T>(s: seq<T>, op: Operation, inserted: seq<T>)
    requires s != []
    ensures Splice(s, 0, op, inserted)
         == if op.InsertBefore? then inserted + s
            else if op.InsertAfter? then [s[0]] + (inserted + s[1..])
            else s[1..]
  {
  }

  lemma {:induction false} OutcomeSplit(op: Operation, t: Node, rest: seq<Node>)
    requires op.Delete? || op.Inserts()
    ensures Outcome(op, t) + rest
         == if op.InsertBefore? then op.Inserted() + ([t] + rest)
            else if op.InsertAfter? then [t] + (op.Inserted() + rest)
            else rest
  {
  }

  lemma {:induction false} SpliceAbs(f: seq<Skeleton>, op: Operation, inserted: seq<Skeleton>)
    requires f != [] && Linked(f) && (op.Delete? || op.Inserts())
    requires Linked(inserted) && Abs(inserted) == op.Inserted()
    ensures Linked(Splice(f, 0, op, inserted))
    ensures Abs(Splice(f, 0, op, inserted)) == Outcome(op, Abs(f)[0]) + Abs(f[1..])
  {
    SpliceFirst(f, op, inserted);
    OutcomeSplit(op, Abs(f)[0], Abs(f[1..]));
    assert Abs(f) == [Abs(f)[0]] + Abs(f[1..]);
    if op.InsertBefore? {
      AbsAppend(inserted, f);
    } else if op.InsertAfter? {
      AbsAppend(inserted, f[1..]);
      AbsOf(f[0], inserted + f[1..]);
    }
  }

  /** The parent's list of children was spliced; every other object is as before. */
  twostate predicate ListSpliced(s: Site, new inserted: seq<Skeleton>)
    requires old(s.Located()).Some?
    reads Objs(s.f)
  {
    var place := old(s.Located()).value;
    forall o | o in Objs(s.f) ::
      (&& old(allocated(o)) && o.Fields() == old(o.Fields())
       && o.children == if o == place.parent then Splice(old(o.children), place.index, s.op, Tops(inserted))
                        else old(o.children))
  }

  /** The new shape describes the objects, and stands for the edited values. */
  twostate predicate EditedAs(s: Site, new inserted: seq<Skeleton>, new g: seq<Skeleton>)
    requires old(s.Located()).Some?
    reads Objs(s.f), Objs(g)
  {
    var place := old(s.Located()).value;
    && Linked(g) && Abs(g) == EditFirst(old(Abs(s.f)), s.op)
    && Tops(g) == if place.parent == s.parent then Splice(Tops(s.f), place.index - s.index, s.op, Tops(inserted))
                  else Tops(s.f)
  }

  twostate predicate ListEdited(s: Site, new inserted: seq<Skeleton>)
    requires old(s.Located()).Some?
    reads Objs(s.f), Objs(Reshape(s.f, s.node, s.op, inserted))
  {
    EditedAs(s, inserted, Reshape(s.f, s.node, s.op, inserted))
  }

  twostate predicate ReadyToEdit(s: Site, new inserted: seq<Skeleton>)
    reads Objs(s.f), Objs(inserted)
  {
    && Apart(s.f) && s.parent !in Objs(s.f) && old(Linked(s.f))
    && (s.op.Delete? || s.op.Inserts())
    && old(s.Located()).Some? && old(s.Located()).value.node == s.node && ListSpliced(s, inserted)
    && Linked(inserted) && Abs(inserted) == s.op.Inserted()
  }

  function Kids(s: Site): Site
    requires s.f != []
  {
    Site(s.f[0].kids, s.f[0].obj, 0, s.op, s.node)
  }

  function Rest(s: Site): Site
    requires s.f != []
  {
    Site(s.f[1..], s.parent, s.index + 1, s.op, s.node)
  }

  lemma {:induction false} EditFirstHere(f: seq<Node>, op: Operation)
    requires f != [] && f[0].id == op.target
    ensures EditFirst(f, op) == Outcome(op, f[0]) + f[1..]
  {
  }

  lemma {:induction false} EditFirstBelow(f: seq<Node>, op: Operation)
    requires f != [] && f[0].id != op.target && op.target in Ids(f[0].children)
    ensures EditFirst(f, op) == [f[0].(children := EditFirst(f[0].children, op))] + f[1..]
  {
  }

  twostate lemma {:induction false} HereUnchanged(s: Site, new inserted: seq<Skeleton>)
    requires s.f != [] && ReadyToEdit(s, inserted) && old(s.f[0].obj.id) == s.op.target
    ensures old(s.Located()) == Some(Place(s.f[0].obj, s.parent, s.index)) && s.node == s.f[0].obj
    ensures Linked(s.f) && Abs(s.f) == old(Abs(s.f))
    ensures Abs(s.f) == [Abs(s.f)[0]] + Abs(s.f[1..]) && Abs(s.f)[0].id == s.op.target
  {
    Untouched(s.f);
  }

  twostate lemma {:induction false} EditHere(s: Site, new inserted: seq<Skeleton>)
    requires s.f != [] && ReadyToEdit(s, inserted) && old(s.f[0].obj.id) == s.op.target
    ensures ListEdited(s, inserted)
  {
    HereUnchanged(s, inserted);
    SpliceAbs(s.f, s.op, inserted);
    SpliceTops(s.f, 0, s.op, inserted);
    EditFirstHere(Abs(s.f), s.op);
    assert Abs(s.f)[1..] == Abs(s.f[1..]);
    assert Reshape(s.f, s.node, s.op, inserted) == Splice(s.f, 0, s.op, inserted);
  }

  lemma {:induction false} ReshapeBelow(f: seq<Skeleton>, n: HeapNode, op: Operation, inserted: seq<Skeleton>)
    requires Apart(f) && f != [] && n in Objs(f[0].kids)
    ensures Reshape(f, n, op, inserted) == [Skeleton(f[0].obj, Reshape(f[0].kids, n, op, inserted))] + f[1..]
  {
  }

  /** What the edit below the first tree leaves as it was, and what it changed. */
  twostate lemma {:induction false} BelowChanged(s: Site, new inserted: seq<Skeleton>)
    requires s.f != [] && ReadyToEdit(s, inserted) && old(s.f[0].obj.id) != s.op.target
    requires old(Kids(s).Located()).Some? && ListEdited(Kids(s), inserted)
    ensures old(s.Located()) == old(Kids(s).Located()) && old(s.Located()).value.parent != s.parent
    ensures s.node in Objs(s.f[0].kids) && s.op.target in Ids(old(Abs(s.f[0].kids)))
    ensures Abs(s.f[1..]) == old(Abs(s.f[1..])) && Linked(s.f[1..])
    ensures s.f[0].obj.Fields() == old(s.f[0].obj.Fields())
    ensures s.f[0].obj.children == Tops(Reshape(s.f[0].kids, s.node, s.op, inserted))
  {
    WasLocated(Kids(s));
    WasPlaced(Kids(s));
    TopsLength(s.f[0].kids);
    Untouched(s.f[1..]);
  }

  twostate lemma {:induction false} EditBelow(s: Site, new inserted: seq<Skeleton>)
    requires s.f != [] && ReadyToEdit(s, inserted) && old(s.f[0].obj.id) != s.op.target
    requires old(Kids(s).Located()).Some? && ListEdited(Kids(s), inserted)
    ensures ListEdited(s, inserted)
  {
    BelowChanged(s, inserted);
    var below := Reshape(s.f[0].kids, s.node, s.op, inserted);
    ReshapeBelow(s.f, s.node, s.op, inserted);
    AbsOf(Skeleton(s.f[0].obj, below), s.f[1..]);
    AbsRest(s);
    EditFirstBelow(old(Abs(s.f)), s.op);
  }

  twostate lemma {:induction false} AfterUnchanged(s: Site, new inserted: seq<Skeleton>)
    requires s.f != [] && ReadyToEdit(s, inserted) && old(s.f[0].obj.id) != s.op.target
    requires old(Kids(s).Located()).None?
    ensures old(Rest(s).Located()) == old(s.Located())
    ensures s.node in Objs(s.f[1..]) && s.op.target !in Ids(old(Abs(s.f[0].kids)))
    ensures Abs(s.f[0].kids) == old(Abs(s.f[0].kids)) && Linked(s.f[0].kids)
    ensures s.f[0].obj.children == old(s.f[0].obj.children) && s.f[0].obj.Fields() == old(s.f[0].obj.Fields())
  {
    WasLocated(Kids(s));
    WasPlaced(Rest(s));
    Untouched(s.f[0].kids);
  }

  lemma {:induction false} SpliceRest<T>(s: seq<T>, i: int, op: Operation, inserted: seq<T>)
    requires 0 < i < |s|
    ensures [s[0]] + Splice(s[1..], i - 1, op, inserted) == Splice(s, i, op, inserted)
  {
  }

  lemma {:induction false} ReshapeRest(f: seq<Skeleton>, n: HeapNode, op: Operation, inserted: seq<Skeleton>)
    requires Apart(f) && f != [] && n in Objs(f[1..])
    ensures Reshape(f, n, op, inserted) == [f[0]] + Reshape(f[1..], n, op, inserted)
  {
  }

  lemma {:induction false} EditFirstAfter(f: seq<Node>, op: Operation)
    requires f != [] && f[0].id != op.target && op.target !in Ids(f[0].children)
    ensures EditFirst(f, op) == [f[0]] + EditFirst(f[1..], op)
  {
  }

  twostate lemma {:induction false} AbsRest(s: Site)
    requires s.f != []
    ensures old(Abs(s.f)) == [old(Abs(s.f))[0]] + old(Abs(s.f[1..]))
    ensures old(Abs(s.f))[0] == old(s.f[0].obj.Fields().(children := Abs(s.f[0].kids)))
  {
  }

  twostate lemma {:induction false} EditAfterAbs(s: Site, new inserted: seq<Skeleton>)
    requires s.f != [] && ReadyToEdit(s, inserted) && old(s.f[0].obj.id) != s.op.target
    requires old(Kids(s).Located()).None? && old(Rest(s).Located()).Some? && ListEdited(Rest(s), inserted)
    ensures var g := [s.f[0]] + Reshape(s.f[1..], s.node, s.op, inserted);
      Linked(g) && Abs(g) == EditFirst(old(Abs(s.f)), s.op)
  {
    AfterUnchanged(s, inserted);
    AbsOf(s.f[0], Reshape(s.f[1..], s.node, s.op, inserted));
    AbsRest(s);
    EditFirstAfter(old(Abs(s.f)), s.op);
  }

  /** The edited rest behind the first tree. */
  twostate lemma {:induction false} EditAfterAs(s: Site, new inserted: seq<Skeleton>)
    requires s.f != [] && ReadyToEdit(s, inserted) && old(s.f[0].obj.id) != s.op.target
    requires old(Kids(s).Located()).None? && old(Rest(s).Located()).Some? && ListEdited(Rest(s), inserted)
    ensures EditedAs(s, inserted, [s.f[0]] + Reshape(s.f[1..], s.node, s.op, inserted))
  {
    AbsOf(s.f[0], Reshape(s.f[1..], s.node, s.op, inserted));
    EditAfterAbs(s, inserted);
    EditAfterTops(s, inserted);
  }

  twostate lemma {:induction false} EditAfter(s: Site, new inserted: seq<Skeleton>)
    requires s.f != [] && ReadyToEdit(s, inserted) && old(s.f[0].obj.id) != s.op.target
    requires old(Kids(s).Located()).None? && old(Rest(s).Located()).Some? && ListEdited(Rest(s), inserted)
    ensures ListEdited(s, inserted)
  {
    EditAfterAs(s, inserted);
    AfterUnchanged(s, inserted);
    ReshapeRest(s.f, s.node, s.op, inserted);
  }

  twostate lemma {:induction false} EditAfterTops(s: Site, new inserted: seq<Skeleton>)
    requires s.f != [] && ReadyToEdit(s, inserted) && old(s.f[0].obj.id) != s.op.target
    requires old(Kids(s).Located()).None? && old(Rest(s).Located()).Some? && ListEdited(Rest(s), inserted)
    ensures var place := old(s.Located()).value;
      [s.f[0].obj] + Tops(Reshape(s.f[1..], s.node, s.op, inserted))
        == if place.parent == s.parent then Splice(Tops(s.f), place.index - s.index, s.op, Tops(inserted))
           else Tops(s.f)
  {
    AfterUnchanged(s, inserted);
    WasPlaced(Rest(s));
    TopsLength(s.f[1..]);
    var place := old(s.Located()).value;
    if place.parent == s.parent {
      SpliceRest(Tops(s.f), place.index - s.index, s.op, Tops(inserted));
      assert Tops(s.f)[1..] == Tops(s.f[1..]);
    }
  }

  twostate lemma {:induction false} ReadyBelow(s: Site, new inserted: seq<Skeleton>)
    requires s.f != [] && ReadyToEdit(s, inserted) && old(s.f[0].obj.id) != s.op.target
    requires old(Kids(s).Located()).Some?
    ensures ReadyToEdit(Kids(s), inserted)
  {
    WasPlaced(Kids(s));
  }

  twostate lemma {:induction false} ReadyAfter(s: Site, new inserted: seq<Skeleton>)
    requires s.f != [] && ReadyToEdit(s, inserted) && old(s.f[0].obj.id) != s.op.target
    requires old(Kids(s).Located()).None?
    ensures ReadyToEdit(Rest(s), inserted)
  {
    AfterUnchanged(s, inserted);
    WasPlaced(Rest(s));
  }

  /** Splicing the parent's list of children makes the edit. */
  twostate lemma {:induction false} ListEdit(s: Site, new inserted: seq<Skeleton>)
    requires ReadyToEdit(s, inserted)
    ensures ListEdited(s, inserted)
    decreases s.f
  {
    if old(s.f[0].obj.id) == s.op.target {
      EditHere(s, inserted);
    } else if old(Kids(s).Located()).Some? {
      ReadyBelow(s, inserted);
      ListEdit(Kids(s), inserted);
      EditBelow(s, inserted);
    } else {
      ReadyAfter(s, inserted);
      ListEdit(Rest(s), inserted);
      EditAfter(s, inserted);
    }
  }

  // ---- The edited shape ----

  lemma {:induction false} SpliceApart(f: seq<Skeleton>, op: Operation, inserted: seq<Skeleton>)
    requires f != [] && Apart(f) && Apart(inserted) && Objs(f) !! Objs(inserted)
    ensures Apart(Splice(f, 0, op, inserted)) && Objs(Splice(f, 0, op, inserted)) <= Objs(f) + Objs(inserted)
  {
    var first, rest := [f[0]], f[1..];
    assert f == first + rest && f[..0] == [] && f[0..] == f && f[..1] == first;
    assert [] + inserted == inserted && [] + rest == rest;
    ObjsAppend(first, rest);
    ApartAppend(first, rest);
    if op.InsertBefore? {
      ObjsAppend(inserted, f);
      ApartAppend(inserted, f);
    } else if op.InsertAfter? {
      ObjsAppend(first, inserted);
      ApartAppend(first, inserted);
      ObjsAppend(first + inserted, rest);
      ApartAppend(first + inserted, rest);
    }
  }

  lemma {:induction false} ReshapeApart(f: seq<Skeleton>, n: HeapNode, op: Operation, inserted: seq<Skeleton>)
    requires Apart(f) && Apart(inserted) && Objs(f) !! Objs(inserted)
    ensures Apart(Reshape(f, n, op, inserted))
    ensures Objs(Reshape(f, n, op, inserted)) <= Objs(f) + Objs(inserted)
  {
    if f == [] {
    } else if f[0].obj == n {
      SpliceApart(f, op, inserted);
    } else if n in Objs(f[0].kids) {
      ReshapeApart(f[0].kids, n, op, inserted);
      assert Reshape(f, n, op, inserted)[1..] == f[1..];
    } else {
      ReshapeApart(f[1..], n, op, inserted);
      assert Reshape(f, n, op, inserted)[1..] == Reshape(f[1..], n, op, inserted);
    }
  }

  // ---- One operation ----

  /** A tree owned by the running patch. */
  ghost predicate Owned(root: HeapNode, sk: Skeleton)
    reads Objs([sk])
  {
    sk.obj == root && Apart([sk]) && Linked([sk])
  }

  function Only(changes: map<string, Json>, keys: set<string>): map<string, Json> {
    map k | k in changes && k in keys :: changes[k]
  }

  lemma {:induction false} ChangeOne(attributes: map<string, Json>, changes: map<string, Json>, done: set<string>, key: string)
    requires key in changes && key !in done
    ensures Changed(attributes, Only(changes, done + {key}))
         == var before := Changed(attributes, Only(changes, done));
            if changes[key] == JNull then before - {key} else before[key := changes[key]]
  {
  }

  /** Sets and removes attribute keys one at a time. */
  method Alter(node: HeapNode, changes: map<string, Json>)
    modifies node`attributes
    ensures node.attributes == Changed(old(node.attributes), changes)
  {
    var keys := changes.Keys;
    ghost var done: set<string> := {};
    assert node.attributes == Changed(node.attributes, Only(changes, {}));
    while keys != {}
      invariant keys + done == changes.Keys && keys !! done
      invariant node.attributes == Changed(old(node.attributes), Only(changes, done))
      decreases keys
    {
      var key :| key in keys;
      ChangeOne(old(node.attributes), changes, done, key);
      if changes[key] == JNull {
        node.attributes := node.attributes - {key};
      } else {
        node.attributes := node.attributes[key := changes[key]];
      }
      keys, done := keys - {key}, done + {key};
    }
    assert Only(changes, done) == changes;
  }

  /** The target's own fields change. */
  method EditNode(root: HeapNode, node: HeapNode, op: Operation, ghost sk: Skeleton)
    requires Owned(root, sk) && (op.Replace? || op.Update?) && Hit([sk], op.target) == Some(node)
    modifies Objs([sk])
    ensures Owned(root, sk) && Abs([sk]) == EditFirst(old(Abs([sk])), op)
  {
    HitIsFound([sk], op.target);
    AllAllocated([sk]);
    if op.Replace? {
      node.content := op.content;
    } else {
      Alter(node, op.changes);
    }
    FieldEdit(Edit([sk], op));
  }

  lemma {:induction false} PlaceFits(f: seq<Skeleton>, parent: HeapNode?, index: int, target: string)
    requires Linked(f) && PlaceOf(f, parent, index, target).Some?
    ensures var place := PlaceOf(f, parent, index, target).value;
      || (place.parent == parent && index <= place.index < index + |f|)
      || (place.parent != null && place.parent in Objs(f) && 0 <= place.index < |place.parent.children|)
  {
    if f[0].obj.id != target {
      if PlaceOf(f[0].kids, f[0].obj, 0, target).Some? {
        PlaceFits(f[0].kids, f[0].obj, 0, target);
        TopsLength(f[0].kids);
      } else {
        PlaceFits(f[1..], parent, index + 1, target);
      }
    }
  }

  /** Removes the child at the position, or inserts beside it. */
  method SpliceChildren(parent: HeapNode, index: int, op: Operation, copies: seq<HeapNode>)
    requires 0 <= index < |parent.children| && (op.Delete? || op.Inserts())
    modifies parent`children
    ensures parent.children == Splice(old(parent.children), index, op, copies)
  {
    if op.Delete? {
      parent.children := parent.children[..index] + parent.children[index + 1..];
    } else {
      var at := if op.InsertAfter? then index + 1 else index;
      parent.children := parent.children[..at] + copies + parent.children[at..];
    }
  }

  /** New objects for what the operation inserts. */
  method CopyInserted(op: Operation) returns (copies: seq<HeapNode>, ghost inserted: seq<Skeleton>)
    ensures fresh(Objs(inserted)) && Grown(inserted, copies, op.Inserted())
  {
    copies, inserted := [], [];
    if op.Inserts() {
      var copy, made := Build(op.node);
      copies, inserted := [copy], [made];
    }
  }

  /** The root object stays, and carries the edited shape. */
  twostate lemma {:induction false} ListOwned(s: Site, new inserted: seq<Skeleton>) returns (after: Skeleton)
    requires |s.f| == 1 && s.parent == null && ReadyToEdit(s, inserted) && ListEdited(s, inserted)
    requires Apart(inserted) && Objs(s.f) !! Objs(inserted) && old(s.Located()).value.parent != null
    ensures Owned(s.f[0].obj, after) && Abs([after]) == EditFirst(old(Abs(s.f)), s.op)
    ensures Objs([after]) <= Objs(s.f) + Objs(inserted)
  {
    ReshapeApart(s.f, s.node, s.op, inserted);
    var g := Reshape(s.f, s.node, s.op, inserted);
    TopsLength(g);
    TopsLength(s.f);
    after := g[0];
    assert g == [after];
  }

  /** The parent's list of children changes, with these new objects among them. */
  method SpliceInto(root: HeapNode, place: Place, op: Operation, copies: seq<HeapNode>, ghost sk: Skeleton,
                    ghost inserted: seq<Skeleton>)
    returns (ghost after: Skeleton)
    requires Owned(root, sk) && (op.Delete? || op.Inserts())
    requires PlaceOf([sk], null, -1, op.target) == Some(place) && place.parent != null
    requires Grown(inserted, copies, op.Inserted()) && Objs([sk]) !! Objs(inserted)
    modifies Objs([sk])
    ensures Owned(root, after) && Abs([after]) == EditFirst(old(Abs([sk])), op)
    ensures Objs([after]) <= Objs([sk]) + Objs(inserted)
  {
    AllAllocated([sk]);
    AllAllocated(inserted);
    PlaceFits([sk], null, -1, op.target);
    SpliceChildren(place.parent, place.index, op, copies);
    Untouched(inserted);
    ghost var s := Site([sk], null, -1, op, place.node);
    ListEdit(s, inserted);
    after := ListOwned(s, inserted);
  }

  /** The parent's list of children changes. */
  method EditList(root: HeapNode, place: Place, op: Operation, ghost sk: Skeleton) returns (ghost after: Skeleton)
    requires Owned(root, sk) && (op.Delete? || op.Inserts())
    requires PlaceOf([sk], null, -1, op.target) == Some(place) && place.parent != null
    modifies Objs([sk])
    ensures Owned(root, after) && Abs([after]) == EditFirst(old(Abs([sk])), op)
    ensures forall o | o in Objs([after]) :: o in Objs([sk]) || fresh(o)
  {
    AllAllocated([sk]);
    PlaceIsInside([sk], null, -1, op.target);
    var copies, inserted := CopyInserted(op);
    after := SpliceInto(root, place, op, copies, sk, inserted);
  }

  /** Locates the target, checks the hashes the objects carry, and edits. */
  method ApplyInPlace(root: HeapNode, op: Operation, ghost sk: Skeleton)
    returns (r: Result<()>, ghost after: Skeleton)
    requires Owned(root, sk)
    modifies Objs([sk])
    ensures Owned(root, after) && (forall o | o in Objs([after]) :: o in Objs([sk]) || fresh(o))
    ensures r == Check(old(Abs([sk])), op)
    ensures Abs([after]) == if r.Ok? then EditFirst(old(Abs([sk])), op) else old(Abs([sk]))
  {
    after := sk;
    AllAllocated([sk]);
    PlaceAgrees([sk], null, -1, op.target);
    HitIsPlace([sk], null, -1, op.target);
    assert Tops([sk]) == [root];
    var found := Visit([root], null, -1, op.target, [sk]);
    if found.None? {
      return Failed(Missing), sk;
    }
    PlaceIsInside([sk], null, -1, op.target);
    var place := found.value;
    if place.node.hash != op.expected {
      return Failed(StaleHash), sk;
    }
    if op.Replace? || op.Update? {
      EditNode(root, place.node, op, sk);
      return Ok(()), sk;
    }
    if place.parent == null {
      return Failed(if op.Delete? then RootDeleted else WrongParent), sk;
    }
    if op.Inserts() {
      if place.parent.id != op.parentId {
        return Failed(WrongParent), sk;
      }
      if place.parent.hash != op.parentHash {
        return Failed(StaleParent), sk;
      }
    }
    after := EditList(root, place, op, sk);
    r := Ok(());
  }

  lemma {:induction false} ApplyOne(f: seq<Node>, ops: seq<Operation>, i: nat)
    requires i < |ops| && ApplyAll(f, ops[..i]).Ok?
    ensures ApplyAll(f, ops[..i + 1]) == ApplyOp(ApplyAll(f, ops[..i]).value, ops[i])
  {
    assert ops[..i + 1][..i] == ops[..i];
  }

  lemma {:induction false} FailureStays(f: seq<Node>, ops: seq<Operation>, i: nat)
    requires i <= |ops| && ApplyAll(f, ops[..i]).Failed?
    ensures ApplyAll(f, ops) == ApplyAll(f, ops[..i])
    decreases |ops| - i
  {
    if i < |ops| {
      assert ops[..i + 1][..i] == ops[..i];
      FailureStays(f, ops, i + 1);
    } else {
      assert ops[..i] == ops;
    }
  }

  /** Operation after operation on one tree, each located and checked in what the ones
      before left behind. */
  method ApplyOperations(root: HeapNode, ops: seq<Operation>, ghost sk: Skeleton)
    returns (r: Result<()>, ghost after: Skeleton)
    requires Owned(root, sk)
    modifies Objs([sk])
    ensures Owned(root, after) && (forall o | o in Objs([after]) :: o in Objs([sk]) || fresh(o))
    ensures r.Ok? ==> ApplyAll(old(Abs([sk])), ops) == Ok(Abs([after]))
    ensures r.Failed? ==> ApplyAll(old(Abs([sk])), ops) == Failed(r.error)
  {
    after, r := sk, Ok(());
    AllAllocated([sk]);
    ghost var base := Abs([sk]);
    var i: nat := 0;
    assert ops[..0] == [];
    while i < |ops|
      invariant i <= |ops| && Owned(root, after)
      invariant forall o | o in Objs([after]) :: o in Objs([sk]) || fresh(o)
      invariant ApplyAll(base, ops[..i]) == Ok(Abs([after]))
    {
      ApplyOne(base, ops, i);
      AllAllocated([after]);
      var step;
      step, after := ApplyInPlace(root, ops[i], after);
      if step.Failed? {
        FailureStays(base, ops, i + 1);
        return step, after;
      }
      i := i + 1;
    }
    assert ops[..i] == ops;
  }

  // ---- Rehashing in place ----

  /** Only the hashes changed. */
  twostate predicate OnlyHashes(s: set<HeapNode>)
    reads s
  {
    forall o | o in s :: o.children == old(o.children) && o.Fields() == old(o.Fields()).(hash := o.hash)
  }

  twostate lemma {:induction false} ShapeStays(f: seq<Skeleton>)
    requires OnlyHashes(Objs(f)) && old(Linked(f))
    ensures Linked(f) && ChildIds(Abs(f)) == old(ChildIds(Abs(f)))
  {
    if f != [] {
      ShapeStays(f[0].kids);
      ShapeStays(f[1..]);
      ChildIdsFirst(Abs(f));
      assert old(ChildIds(Abs(f))) == [old(Abs(f))[0].id] + ChildIds(old(Abs(f))[1..]) by {
        ChildIdsFirst(old(Abs(f)));
      }
    }
  }

  lemma {:induction false} ChildIdsFirst(f: seq<Node>)
    requires f != []
    ensures ChildIds(f) == [f[0].id] + ChildIds(f[1..])
  {
  }

  function IdsOf(nodes: seq<HeapNode>): seq<string>
    reads nodes
  {
    seq(|nodes|, i requires 0 <= i < |nodes| reads nodes => nodes[i].id)
  }

  lemma {:induction false} IdsOfTops(f: seq<Skeleton>)
    ensures IdsOf(Tops(f)) == ChildIds(Abs(f))
  {
    TopsLength(f);
    AbsAt(f);
  }

  lemma {:induction false} AbsAt(f: seq<Skeleton>)
    ensures |Abs(f)| == |f| && forall i | 0 <= i < |f| :: Abs(f)[i].id == f[i].obj.id
  {
    if f != [] {
      AbsAt(f[1..]);
    }
  }

  /** Writes the hash of the node's present shape. */
  method SetHash(node: HeapNode, ghost sk: Skeleton)
    requires Owned(node, sk)
    modifies node`hash
    ensures Linked([sk]) && Abs(sk.kids) == old(Abs(sk.kids)) && OnlyHashes(Objs([sk]))
    ensures node.hash == HashNode(node.Fields().(children := Abs(sk.kids)))
    ensures forall o | o in Objs(sk.kids) :: o.hash == old(o.hash)
  {
    AllAllocated([sk]);
    IdsOfTops(sk.kids);
    node.hash := HashOf(Shape(node.kind, node.attributes, node.content, IdsOf(node.children), node.location,
                              node.pages, node.metadata));
    Untouched(sk.kids);
  }

  twostate lemma {:induction false} OneTree(sk: Skeleton)
    ensures old(Abs([sk])) == [old(sk.obj.Fields()).(children := old(Abs(sk.kids)))]
    ensures Abs([sk]) == [sk.obj.Fields().(children := Abs(sk.kids))]
  {
    assert [sk][1..] == [];
  }

  /** With the children up to date and the node's own hash written, the tree is rehashed. */
  twostate lemma {:induction false} NodeRehashed(sk: Skeleton)
    requires sk.obj.Fields() == old(sk.obj.Fields()).(hash := sk.obj.hash)
    requires Abs(sk.kids) == Rehashed(old(Abs(sk.kids)))
    requires sk.obj.hash == HashNode(sk.obj.Fields().(children := Abs(sk.kids)))
    ensures Abs([sk]) == Rehashed(old(Abs([sk])))
  {
    OneTree(sk);
    RehashedRootIs(old(sk.obj.Fields()).(children := old(Abs(sk.kids))));
  }

  /** The children first, then the node itself. */
  method RehashNode(node: HeapNode, ghost sk: Skeleton)
    requires Owned(node, sk)
    modifies Objs([sk])
    ensures Linked([sk]) && OnlyHashes(Objs([sk])) && Abs([sk]) == Rehashed(old(Abs([sk])))
    decreases sk, 1
  {
    assert [sk][1..] == [];
    AllAllocated([sk]);
    RehashAll(node.children, sk.kids);
    SetHash(node, sk);
    NodeRehashed(sk);
  }

  lemma {:induction false} RehashedRootIs(t: Node)
    ensures Rehashed([t]) == [t.(children := Rehashed(t.children), hash := HashNode(t.(children := Rehashed(t.children))))]
  {
    assert [t][1..] == [];
  }

  twostate lemma {:induction false} AbsParts(f: seq<Skeleton>)
    requires f != []
    ensures old(Abs(f)) == old(Abs([f[0]])) + old(Abs(f[1..]))
    ensures Abs(f) == Abs([f[0]]) + Abs(f[1..])
  {
    assert [f[0]][1..] == [];
  }

  lemma {:induction false} RehashedAppend(a: seq<Node>, b: seq<Node>)
    ensures Rehashed(a + b) == Rehashed(a) + Rehashed(b)
  {
    if a == [] {
      assert a + b == b;
    } else {
      assert (a + b)[1..] == a[1..] + b;
      RehashedAppend(a[1..], b);
    }
  }

  /** Rehashing one part of a forest and then the rest. */
  twostate lemma {:induction false} RehashedBoth(f: seq<Skeleton>)
    requires f != []
    requires Abs([f[0]]) == Rehashed(old(Abs([f[0]]))) && Abs(f[1..]) == Rehashed(old(Abs(f[1..])))
    ensures Abs(f) == Rehashed(old(Abs(f)))
  {
    AbsParts(f);
    RehashedAppend(old(Abs([f[0]])), old(Abs(f[1..])));
  }

  method RehashAll(nodes: seq<HeapNode>, ghost f: seq<Skeleton>)
    requires nodes == Tops(f) && Apart(f) && Linked(f)
    modifies Objs(f)
    ensures Linked(f) && OnlyHashes(Objs(f)) && Abs(f) == Rehashed(old(Abs(f)))
    decreases f, 0
  {
    if nodes == [] {
      return;
    }
    AllAllocated(f);
    assert [f[0]][1..] == [] && Objs([f[0]]) == {f[0].obj} + Objs(f[0].kids);
    RehashNode(nodes[0], f[0]);
    Untouched(f[1..]);
    label First:
    RehashAll(nodes[1..], f[1..]);
    Untouched@First([f[0]]);
    RehashedBoth(f);
  }
}
