/** The canonical document tree. A content hash is an injective function of the node's own
    fields and its children's identifiers; no node's hash depends on what its children hold. */
module DocumentTree {
  import opened Options
  import opened JsonValues

  datatype NodeType = DocumentRoot | HeadingNode | ParagraphNode | PageNode | ListNode | ListItemNode | TableNode

  datatype Location = Location(file: string, start: int, end: int, startLine: int, endLine: int)

  datatype PageMapping = PageMapping(page: int, start: int, end: int)

  datatype Shape = Shape(kind: NodeType, attributes: map<string, Json>, content: string, childIds: seq<string>,
                         location: Location, pages: seq<PageMapping>, metadata: map<string, Json>)

  /** An absent hash, the hash of a shape, or text that is the hash of nothing here. */
  datatype Hash = NoHash | HashOf(shape: Shape) | Foreign(text: string)

  datatype Node = Node(id: string, kind: NodeType, attributes: map<string, Json>, content: string,
                       children: seq<Node>, location: Location, pages: seq<PageMapping>,
                       metadata: map<string, Json>, hash: Hash)

  function ChildIds(children: seq<Node>): seq<string> {
    seq(|children|, i requires 0 <= i < |children| => children[i].id)
  }

  function HashNode(t: Node): Hash {
    HashOf(Shape(t.kind, t.attributes, t.content, ChildIds(t.children), t.location, t.pages, t.metadata))
  }

  /** Every identifier of a forest. */
  function Ids(f: seq<Node>): set<string> {
    if f == [] then {} else {f[0].id} + Ids(f[0].children) + Ids(f[1..])
  }

  /** No identifier occurs twice. */
  predicate Unique(f: seq<Node>) {
    f == [] || (
      && f[0].id !in Ids(f[0].children)
      && f[0].id !in Ids(f[1..])
      && Ids(f[0].children) !! Ids(f[1..])
      && Unique(f[0].children)
      && Unique(f[1..]))
  }

  lemma {:induction false} IdsAppend(a: seq<Node>, b: seq<Node>)
    ensures Ids(a + b) == Ids(a) + Ids(b)
  {
    if a == [] {
      assert a + b == b;
    } else {
      assert (a + b)[1..] == a[1..] + b;
      IdsAppend(a[1..], b);
    }
  }

  lemma {:induction false} UniqueAppend(a: seq<Node>, b: seq<Node>)
    ensures Unique(a + b) <==> Unique(a) && Unique(b) && Ids(a) !! Ids(b)
  {
    if a == [] {
      assert a + b == b;
    } else {
      assert (a + b)[1..] == a[1..] + b;
      IdsAppend(a[1..], b);
      UniqueAppend(a[1..], b);
    }
  }

  // ---- Lookup ----

  /** What a patch checks about a node: its hash and its parent's identity. */
  datatype Parent = Parent(id: string, hash: Hash)

  datatype Found = Found(hash: Hash, parent: Option<Parent>)

  function OrElse<T>(a: Option<T>, b: Option<T>): Option<T> {
    if a.Some? then a else b
  }

  /** The first node with this identifier in document order. */
  function Find(f: seq<Node>, parent: Option<Parent>, id: string): Option<Found> {
    if f == [] then None
    else if f[0].id == id then Some(Found(f[0].hash, parent))
    else OrElse(Find(f[0].children, Some(Parent(f[0].id, f[0].hash)), id), Find(f[1..], parent, id))
  }

  lemma {:induction false} FindAppend(a: seq<Node>, b: seq<Node>, parent: Option<Parent>, id: string)
    ensures Find(a + b, parent, id) == OrElse(Find(a, parent, id), Find(b, parent, id))
  {
    if a == [] {
      assert a + b == b;
    } else {
      assert (a + b)[1..] == a[1..] + b;
      FindAppend(a[1..], b, parent, id);
    }
  }

  lemma {:induction false} FindIff(f: seq<Node>, parent: Option<Parent>, id: string)
    ensures Find(f, parent, id).Some? <==> id in Ids(f)
  {
    if f != [] {
      FindIff(f[0].children, Some(Parent(f[0].id, f[0].hash)), id);
      FindIff(f[1..], parent, id);
    }
  }

  // ---- Hashing ----

  /** Every node carries the hash of its own shape. */
  predicate Hashed(f: seq<Node>) {
    f == [] || (f[0].hash == HashNode(f[0]) && Hashed(f[0].children) && Hashed(f[1..]))
  }

  function Rehashed(f: seq<Node>): (r: seq<Node>)
    ensures ChildIds(r) == ChildIds(f)
  {
    if f == [] then []
    else
      var t := f[0].(children := Rehashed(f[0].children));
      var rest := Rehashed(f[1..]);
      assert ChildIds([t.(hash := HashNode(t))] + rest) == [t.id] + ChildIds(rest);
      assert ChildIds(f) == [f[0].id] + ChildIds(f[1..]);
      [t.(hash := HashNode(t))] + rest
  }

  lemma {:induction false} RehashedIsHashed(f: seq<Node>)
    ensures Hashed(Rehashed(f)) && Ids(Rehashed(f)) == Ids(f)
    ensures Unique(f) ==> Unique(Rehashed(f))
  {
    if f != [] {
      RehashedIsHashed(f[0].children);
      RehashedIsHashed(f[1..]);
      assert Rehashed(f)[1..] == Rehashed(f[1..]);
    }
  }

  lemma {:induction false} RehashedKeepsHashed(f: seq<Node>)
    requires Hashed(f)
    ensures Rehashed(f) == f
  {
    if f != [] {
      RehashedKeepsHashed(f[0].children);
      RehashedKeepsHashed(f[1..]);
      assert f == [f[0]] + f[1..];
    }
  }
}
