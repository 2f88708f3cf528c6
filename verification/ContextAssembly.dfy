/** Selecting context within token budgets, and the stored manifest's integrity. */
module ContextAssembly {
  import opened Options

  datatype Layer = Control | Task | WorkingMemory | Evidence | Conversation | ArtifactReference

  const LAYERS: seq<Layer> := [Control, Task, WorkingMemory, Evidence, Conversation, ArtifactReference]

  datatype Trust = System | Trusted | Untrusted

  datatype Item = Item(layer: Layer, itemType: string, trust: Trust, sourceId: string, resourceId: string,
                       versionId: string, nodeId: string, score: real, tokens: nat, hash: string, reason: string,
                       truncated: bool, content: string, reference: string, created: string, group: string,
                       order: nat, rank: nat, spans: seq<string>)

  datatype Config = Config(budget: int, reserved: int, layers: map<Layer, int>, tokenizer: string)
  {
    predicate Valid() {
      budget > 0 && 0 <= reserved < budget && tokenizer != "" && forall l | l in layers :: layers[l] >= 0
    }
  }

  predicate Required(l: Layer) {
    l.Control? || l.Task?
  }

  function Sum(items: seq<Item>): nat {
    if items == [] then 0 else Sum(items[..|items| - 1]) + items[|items| - 1].tokens
  }

  lemma {:induction false} SumAppend(a: seq<Item>, b: seq<Item>)
    ensures Sum(a + b) == Sum(a) + Sum(b)
  {
    if b == [] {
      assert a + b == a;
    } else {
      assert (a + b)[..|a + b| - 1] == a + b[..|b| - 1];
      SumAppend(a, b[..|b| - 1]);
    }
  }

  // ---- One layer ----

  /** What a layer may still take. */
  function Limit(config: Config, layer: Layer, total: nat): int {
    var room := config.budget - config.reserved - total;
    if layer in config.layers && config.layers[layer] < room then config.layers[layer] else room
  }

  /** The items taken, in order: each one that fits what is left. */
  function Taken(items: seq<Item>, limit: int): seq<Item> {
    if items == [] then []
    else
      var k := |items| - 1;
      var before := Taken(items[..k], limit);
      if Sum(before) + items[k].tokens > limit then before else before + [items[k]]
  }

  lemma {:induction false} TakenFits(items: seq<Item>, limit: int)
    requires limit >= 0
    ensures Sum(Taken(items, limit)) <= limit
  {
    if items != [] {
      TakenFits(items[..|items| - 1], limit);
      SumAppend(Taken(items[..|items| - 1], limit), [items[|items| - 1]]);
      assert Sum([items[|items| - 1]]) == items[|items| - 1].tokens;
    }
  }

  /** The positions of the items taken. */
  function Picked(items: seq<Item>, limit: int): seq<nat> {
    if items == [] then []
    else
      var k := |items| - 1;
      Picked(items[..k], limit) + if Sum(Taken(items[..k], limit)) + items[k].tokens > limit then [] else [k]
  }

  /** Positions in order, and the items at them. */
  predicate Picks(items: seq<Item>, picks: seq<nat>, part: seq<Item>) {
    && |picks| == |part|
    && (forall n | 0 <= n < |picks| :: picks[n] < |items| && part[n] == items[picks[n]])
    && forall m, n | 0 <= m < n < |picks| :: picks[m] < picks[n]
  }

  lemma {:induction false} TakenAreThePicked(items: seq<Item>, limit: int)
    ensures Picks(items, Picked(items, limit), Taken(items, limit))
  {
    if items != [] {
      TakenAreThePicked(items[..|items| - 1], limit);
    }
  }

  lemma {:induction false} TakenGrows(items: seq<Item>, limit: int, k: nat)
    requires k <= |items|
    ensures Sum(Taken(items[..k], limit)) <= Sum(Taken(items, limit))
    decreases |items| - k
  {
    if k < |items| {
      TakenStep(items, k, limit);
      TakenGrows(items, limit, k + 1);
    } else {
      assert items[..k] == items;
    }
  }

  lemma {:induction false} PickedGrows(items: seq<Item>, limit: int, k: nat)
    requires k <= |items|
    ensures forall i | i in Picked(items[..k], limit) :: i in Picked(items, limit)
    decreases |items| - k
  {
    if k < |items| {
      assert items[..k + 1][..k] == items[..k];
      PickedGrows(items, limit, k + 1);
    } else {
      assert items[..k] == items;
    }
  }

  /** Each position is picked, or its item would not fit even in what the layer leaves over. */
  lemma {:induction false} SkippedDoNotFit(items: seq<Item>, limit: int, k: nat)
    requires k < |items|
    ensures k in Picked(items, limit) || Sum(Taken(items, limit)) + items[k].tokens > limit
  {
    assert items[..k + 1][..k] == items[..k];
    TakenGrows(items, limit, k);
    PickedGrows(items, limit, k + 1);
    if Sum(Taken(items[..k], limit)) + items[k].tokens <= limit {
      assert k in Picked(items[..k + 1], limit);
    }
  }

  /** Everything is taken exactly when everything fits. */
  lemma {:induction false} AllTakenIff(items: seq<Item>, limit: int)
    requires limit >= 0
    ensures |Taken(items, limit)| <= |items|
    ensures |Taken(items, limit)| == |items| <==> Sum(items) <= limit
    ensures |Taken(items, limit)| == |items| ==> Taken(items, limit) == items
  {
    if items != [] {
      var k := |items| - 1;
      AllTakenIff(items[..k], limit);
      assert items == items[..k] + [items[k]];
    }
  }

  lemma {:induction false} TakenStep(items: seq<Item>, k: nat, limit: int)
    requires k < |items|
    ensures var before := Taken(items[..k], limit);
      Taken(items[..k + 1], limit) == if Sum(before) + items[k].tokens > limit then before else before + [items[k]]
    ensures Sum(Taken(items[..k], limit) + [items[k]]) == Sum(Taken(items[..k], limit)) + items[k].tokens
  {
    assert items[..k + 1][..k] == items[..k];
  }

  /** An item that does not fit behind all those before it shows that they do not all fit. */
  lemma {:induction false} FirstShort(items: seq<Item>, k: nat, limit: int)
    requires limit >= 0 && k < |items| && |Taken(items[..k], limit)| == k
    requires Sum(Taken(items[..k], limit)) + items[k].tokens > limit
    ensures Sum(items) > limit
  {
    TakenStep(items, k, limit);
    AllTakenIff(items[..k + 1], limit);
    SumGrows(items, k + 1);
  }

  /** A layer's loop; a required layer stops at the first item that does not fit. */
  method FillLayer(config: Config, layer: Layer, items: seq<Item>, total: nat)
    returns (taken: seq<Item>, short: bool)
    requires config.Valid() && total <= config.budget - config.reserved
    ensures short <==> Required(layer) && Sum(items) > Limit(config, layer, total)
    ensures !short ==> taken == Taken(items, Limit(config, layer, total))
  {
    var available := config.budget - config.reserved;
    var remaining := available - total;
    if layer in config.layers && config.layers[layer] < remaining {
      remaining := config.layers[layer];
    }
    taken, short := FillWithin(items, remaining, available - total, Required(layer));
  }

  /** Item after item while it fits what is left of the layer and of the whole budget. */
  method FillWithin(items: seq<Item>, limit: int, available: int, required: bool)
    returns (taken: seq<Item>, short: bool)
    requires 0 <= limit <= available
    ensures short <==> required && Sum(items) > limit
    ensures !short ==> taken == Taken(items, limit)
  {
    var remaining, free := limit, available;
    taken := [];
    assert items[..0] == [];
    for k := 0 to |items|
      invariant taken == Taken(items[..k], limit)
      invariant remaining == limit - Sum(taken) && free == available - Sum(taken)
      invariant required ==> |taken| == k
    {
      TakenStep(items, k, limit);
      if items[k].tokens > remaining || items[k].tokens > free {
        if required {
          FirstShort(items, k, limit);
          return taken, true;
        }
      } else {
        taken := taken + [items[k]];
        free := free - items[k].tokens;
        remaining := remaining - items[k].tokens;
      }
    }
    assert items[..|items|] == items;
    AllTakenIff(items, limit);
    short := false;
  }

  lemma {:induction false} SumGrows(items: seq<Item>, k: nat)
    requires k <= |items|
    ensures Sum(items[..k]) <= Sum(items)
    decreases |items| - k
  {
    if k < |items| {
      assert items[..k + 1][..k] == items[..k];
      SumGrows(items, k + 1);
    } else {
      assert items[..k] == items;
    }
  }

  // ---- All layers ----

  /** The candidates of each layer in the order they are tried. */
  type Groups = seq<seq<Item>>

  /** Everything selected from the first k layers, or nothing when a required layer fails. */
  function Selected(config: Config, groups: Groups, k: nat): Option<seq<Item>>
    requires k <= |LAYERS| == |groups|
  {
    if k == 0 then Some([])
    else
      var before := Selected(config, groups, k - 1);
      if before.None? then None
      else
        var limit := Limit(config, LAYERS[k - 1], Sum(before.value));
        if Required(LAYERS[k - 1]) && Sum(groups[k - 1]) > limit then None
        else Some(before.value + Taken(groups[k - 1], limit))
  }

  lemma {:induction false} SelectStep(config: Config, groups: Groups, k: nat, items: seq<Item>)
    requires k < |LAYERS| == |groups| && Selected(config, groups, k) == Some(items)
    ensures var limit := Limit(config, LAYERS[k], Sum(items));
      Selected(config, groups, k + 1)
      == if Required(LAYERS[k]) && Sum(groups[k]) > limit then None else Some(items + Taken(groups[k], limit))
  {
  }

  lemma {:induction false} SelectedFits(config: Config, groups: Groups, k: nat)
    requires config.Valid() && k <= |LAYERS| == |groups| && Selected(config, groups, k).Some?
    ensures Sum(Selected(config, groups, k).value) <= config.budget - config.reserved
  {
    if k > 0 {
      SelectedFits(config, groups, k - 1);
      var before := Selected(config, groups, k - 1).value;
      var limit := Limit(config, LAYERS[k - 1], Sum(before));
      TakenFits(groups[k - 1], limit);
      SumAppend(before, Taken(groups[k - 1], limit));
    }
  }

  method Assemble(config: Config, groups: Groups) returns (selected: Option<seq<Item>>, total: nat)
    requires config.Valid() && |groups| == |LAYERS|
    ensures selected == Selected(config, groups, |LAYERS|)
    ensures selected.Some? ==> total == Sum(selected.value) <= config.budget - config.reserved
  {
    var items: seq<Item> := [];
    total := 0;
    for k := 0 to |LAYERS|
      invariant Selected(config, groups, k) == Some(items)
      invariant total == Sum(items) <= config.budget - config.reserved
    {
      SelectStep(config, groups, k, items);
      var taken, short := FillLayer(config, LAYERS[k], groups[k], total);
      if short {
        NoneStays(config, groups, k + 1, |LAYERS|);
        return None, total;
      }
      SelectedFits(config, groups, k + 1);
      SumAppend(items, taken);
      items := items + taken;
      total := total + Sum(taken);
    }
    selected := Some(items);
  }

  lemma {:induction false} NoneStays(config: Config, groups: Groups, k: nat, n: nat)
    requires k <= n <= |LAYERS| == |groups| && Selected(config, groups, k).None?
    ensures Selected(config, groups, n).None?
  {
    if k < n {
      NoneStays(config, groups, k, n - 1);
    }
  }

  /** What a successful selection gives each layer: within its own budget, everything when
      required, otherwise the items at some positions in order, and at no other position one
      that would still fit. */
  lemma {:induction false} LayerLaws(config: Config, groups: Groups, k: nat)
    requires config.Valid() && k < |LAYERS| == |groups| && Selected(config, groups, k + 1).Some?
    ensures Selected(config, groups, k).Some?
    ensures var before, after := Selected(config, groups, k).value, Selected(config, groups, k + 1).value;
      var part := after[|before|..];
      && before <= after && Sum(after) == Sum(before) + Sum(part)
      && (LAYERS[k] in config.layers ==> Sum(part) <= config.layers[LAYERS[k]])
      && (Required(LAYERS[k]) ==> part == groups[k])
      && var limit := Limit(config, LAYERS[k], Sum(before));
      && Picks(groups[k], Picked(groups[k], limit), part)
      && forall i | 0 <= i < |groups[k]| :: i in Picked(groups[k], limit) || Sum(part) + groups[k][i].tokens > limit
  {
    var before := Selected(config, groups, k).value;
    var limit := Limit(config, LAYERS[k], Sum(before));
    var part := Taken(groups[k], limit);
    SelectedFits(config, groups, k);
    assert (before + part)[|before|..] == part;
    SumAppend(before, part);
    TakenFits(groups[k], limit);
    TakenAreThePicked(groups[k], limit);
    AllTakenIff(groups[k], limit);
    forall i | 0 <= i < |groups[k]|
      ensures i in Picked(groups[k], limit) || Sum(part) + groups[k][i].tokens > limit
    {
      SkippedDoNotFit(groups[k], limit, i);
    }
  }

  // ---- The stored manifest ----

  datatype Key = LayerKey | TypeKey | SourceKey | ResourceKey | VersionKey | NodeKey | TrustKey | ScoreKey | TokensKey
               | HashKey | ReasonKey | TruncatedKey | ContentKey | ReferenceKey | GroupKey | OrderKey | RankKey
               | SpansKey | CreatedKey

  datatype Value = Text(s: string) | Whole(n: int) | Fraction(r: real) | Flag(b: bool) | List(items: seq<string>)

  function LayerName(l: Layer): string {
    match l
    case Control => "control"
    case Task => "task"
    case WorkingMemory => "working_memory"
    case Evidence => "evidence"
    case Conversation => "conversation_memory"
    case ArtifactReference => "artifact_reference"
  }

  function TrustName(t: Trust): string {
    match t
    case System => "system"
    case Trusted => "trusted"
    case Untrusted => "untrusted"
  }

  function LayerOf(s: string): Option<Layer> {
    match s
    case "control" => Some(Control)
    case "task" => Some(Task)
    case "working_memory" => Some(WorkingMemory)
    case "evidence" => Some(Evidence)
    case "conversation_memory" => Some(Conversation)
    case "artifact_reference" => Some(ArtifactReference)
    case _ => None
  }

  function TrustOf(s: string): Option<Trust> {
    match s
    case "system" => Some(System)
    case "trusted" => Some(Trusted)
    case "untrusted" => Some(Untrusted)
    case _ => None
  }

  function ScoreValue(score: real): Value {
    if score.Floor as real == score then Whole(score.Floor) else Fraction(score)
  }

  /** Empty texts, zero orders and missing spans are left out. */
  predicate Written(item: Item, key: Key) {
    match key
    case SourceKey => item.sourceId != ""
    case ResourceKey => item.resourceId != ""
    case VersionKey => item.versionId != ""
    case NodeKey => item.nodeId != ""
    case ContentKey => item.content != ""
    case ReferenceKey => item.reference != ""
    case GroupKey => item.group != ""
    case OrderKey => item.order != 0
    case RankKey => item.rank != 0
    case SpansKey => item.spans != []
    case _ => true
  }

  function ValueOf(item: Item, key: Key): Value {
    match key
    case LayerKey => Text(LayerName(item.layer))
    case TypeKey => Text(item.itemType)
    case SourceKey => Text(item.sourceId)
    case ResourceKey => Text(item.resourceId)
    case VersionKey => Text(item.versionId)
    case NodeKey => Text(item.nodeId)
    case TrustKey => Text(TrustName(item.trust))
    case ScoreKey => ScoreValue(item.score)
    case TokensKey => Whole(item.tokens)
    case HashKey => Text(item.hash)
    case ReasonKey => Text(item.reason)
    case TruncatedKey => Flag(item.truncated)
    case ContentKey => Text(item.content)
    case ReferenceKey => Text(item.reference)
    case GroupKey => Text(item.group)
    case OrderKey => Whole(item.order)
    case RankKey => Whole(item.rank)
    case SpansKey => List(item.spans)
    case CreatedKey => Text(item.created)
  }

  function Encode(item: Item): map<Key, Value> {
    map key: Key | Written(item, key) :: ValueOf(item, key)
  }

  function TextAt(m: map<Key, Value>, key: Key, missing: bool): Option<string> {
    if key !in m then (if missing then Some("") else None)
    else if m[key].Text? && (missing || m[key].s != "") then Some(m[key].s)
    else None
  }

  function CountAt(m: map<Key, Value>, key: Key): Option<nat> {
    if key !in m then Some(0) else if m[key].Whole? && m[key].n >= 0 then Some(m[key].n) else None
  }

  function ScoreAt(m: map<Key, Value>): Option<real> {
    if ScoreKey !in m then Some(0.0)
    else match m[ScoreKey]
      case Whole(n) => Some(n as real)
      case Fraction(r) => Some(r)
      case _ => None
  }

  function SpansAt(m: map<Key, Value>): Option<seq<string>> {
    if SpansKey !in m then Some([]) else if m[SpansKey].List? then Some(m[SpansKey].items) else None
  }

  function NamesAt(m: map<Key, Value>): Option<(Layer, Trust)> {
    var layer, trust := TextAt(m, LayerKey, false), TextAt(m, TrustKey, false);
    if layer.None? || LayerOf(layer.value).None? || trust.None? || TrustOf(trust.value).None? then None
    else Some((LayerOf(layer.value).value, TrustOf(trust.value).value))
  }

  /** All of the texts, or nothing when one of them cannot be read. */
  function TextsAt(m: map<Key, Value>, keys: seq<Key>, missing: bool): Option<seq<string>> {
    if keys == [] then Some([])
    else
      var first, rest := TextAt(m, keys[0], missing), TextsAt(m, keys[1..], missing);
      if first.None? || rest.None? then None else Some([first.value] + rest.value)
  }

  lemma {:induction false} TextsLength(m: map<Key, Value>, keys: seq<Key>, missing: bool)
    ensures TextsAt(m, keys, missing).Some? ==> |TextsAt(m, keys, missing).value| == |keys|
  {
    if keys != [] {
      TextsLength(m, keys[1..], missing);
    }
  }

  const REQUIRED: seq<Key> := [TypeKey, HashKey, ReasonKey, CreatedKey]
  const OPTIONAL: seq<Key> := [SourceKey, ResourceKey, VersionKey, NodeKey, ContentKey, ReferenceKey, GroupKey]

  /** An item is read back field by field; a field that cannot be read refuses it. */
  function Decode(m: map<Key, Value>): Option<Item> {
    var names, required, optional := NamesAt(m), TextsAt(m, REQUIRED, false), TextsAt(m, OPTIONAL, true);
    var tokens, order, rank := CountAt(m, TokensKey), CountAt(m, OrderKey), CountAt(m, RankKey);
    var score, spans := ScoreAt(m), SpansAt(m);
    TextsLength(m, REQUIRED, false);
    TextsLength(m, OPTIONAL, true);
    if names.None? || required.None? || optional.None? || tokens.None? || order.None? || rank.None? || score.None?
       || spans.None? then None
    else
      var r, o := required.value, optional.value;
      Some(Item(names.value.0, r[0], names.value.1, o[0], o[1], o[2], o[3], score.value, tokens.value, r[1], r[2],
                TruncatedKey in m && m[TruncatedKey] == Flag(true), o[4], o[5], r[3], o[6],
                order.value, rank.value, spans.value))
  }

  /** What preparation gives every item: a type, a hash, a reason and a time. */
  predicate Prepared(item: Item) {
    item.itemType != "" && item.hash != "" && item.reason != "" && item.created != ""
  }

  lemma {:induction false} NamesRead(item: Item)
    ensures LayerOf(LayerName(item.layer)) == Some(item.layer) && TrustOf(TrustName(item.trust)) == Some(item.trust)
    ensures LayerName(item.layer) != "" && TrustName(item.trust) != ""
  {
  }

  function TextOf(item: Item, key: Key): string {
    if ValueOf(item, key).Text? then ValueOf(item, key).s else ""
  }

  function TextsOf(item: Item, keys: seq<Key>): seq<string> {
    seq(|keys|, i requires 0 <= i < |keys| => TextOf(item, keys[i]))
  }

  /** The key holds a text, which is only left out when it is empty and may be missing. */
  predicate Legible(item: Item, key: Key, missing: bool) {
    ValueOf(item, key).Text? && (TextOf(item, key) == "" ==> missing) && (Written(item, key) || TextOf(item, key) == "")
  }

  lemma {:induction false} TextRead(item: Item, key: Key, missing: bool)
    requires Legible(item, key, missing)
    ensures TextAt(Encode(item), key, missing) == Some(TextOf(item, key))
  {
  }

  lemma {:induction false} TextsRead(item: Item, keys: seq<Key>, missing: bool)
    requires forall i | 0 <= i < |keys| :: Legible(item, keys[i], missing)
    ensures TextsAt(Encode(item), keys, missing) == Some(TextsOf(item, keys))
  {
    if keys != [] {
      TextRead(item, keys[0], missing);
      TextsRead(item, keys[1..], missing);
      assert TextsOf(item, keys) == [TextOf(item, keys[0])] + TextsOf(item, keys[1..]);
    }
  }

  lemma {:induction false} CountRead(item: Item, key: Key, n: nat)
    requires ValueOf(item, key) == Whole(n) && (Written(item, key) || n == 0)
    ensures CountAt(Encode(item), key) == Some(n)
  {
  }

  lemma {:induction false} OthersRead(item: Item)
    ensures ScoreAt(Encode(item)) == Some(item.score) && SpansAt(Encode(item)) == Some(item.spans)
    ensures TruncatedKey in Encode(item) && Encode(item)[TruncatedKey] == Flag(item.truncated)
  {
  }

  lemma {:induction false} RequiredRead(item: Item)
    requires Prepared(item)
    ensures TextsAt(Encode(item), REQUIRED, false) == Some(TextsOf(item, REQUIRED))
    ensures var r := TextsOf(item, REQUIRED);
      r[0] == item.itemType && r[1] == item.hash && r[2] == item.reason && r[3] == item.created
  {
    TextsRead(item, REQUIRED, false);
  }

  lemma {:induction false} OptionalRead(item: Item)
    ensures TextsAt(Encode(item), OPTIONAL, true) == Some(TextsOf(item, OPTIONAL))
    ensures var o := TextsOf(item, OPTIONAL);
      && o[0] == item.sourceId && o[1] == item.resourceId && o[2] == item.versionId && o[3] == item.nodeId
      && o[4] == item.content && o[5] == item.reference && o[6] == item.group
  {
    forall i | 0 <= i < |OPTIONAL|
      ensures Legible(item, OPTIONAL[i], true)
    {
      OptionalLegible(item, OPTIONAL[i]);
    }
    TextsRead(item, OPTIONAL, true);
  }

  lemma {:induction false} OptionalLegible(item: Item, key: Key)
    requires key in OPTIONAL
    ensures Legible(item, key, true)
  {
  }

  lemma {:induction false} NamesAreRead(item: Item)
    ensures NamesAt(Encode(item)) == Some((item.layer, item.trust))
  {
    NamesRead(item);
    TextRead(item, LayerKey, false);
    TextRead(item, TrustKey, false);
  }

  /** A prepared item is read back as it was written. */
  lemma {:induction false} DecodeEncode(item: Item)
    requires Prepared(item)
    ensures Decode(Encode(item)) == Some(item)
  {
    NamesAreRead(item);
    RequiredRead(item);
    OptionalRead(item);
    CountRead(item, TokensKey, item.tokens);
    CountRead(item, OrderKey, item.order);
    CountRead(item, RankKey, item.rank);
    OthersRead(item);
  }

  function EncodeAll(items: seq<Item>): seq<map<Key, Value>> {
    seq(|items|, i requires 0 <= i < |items| => Encode(items[i]))
  }

  function DecodeAll(values: seq<map<Key, Value>>): Option<seq<Item>> {
    if values == [] then Some([])
    else
      var before, last := DecodeAll(values[..|values| - 1]), Decode(values[|values| - 1]);
      if before.None? || last.None? then None else Some(before.value + [last.value])
  }

  lemma {:induction false} DecodeSnoc(items: seq<Item>, last: Item)
    requires DecodeAll(EncodeAll(items)) == Some(items) && Decode(Encode(last)) == Some(last)
    ensures DecodeAll(EncodeAll(items + [last])) == Some(items + [last])
  {
    assert EncodeAll(items + [last]) == EncodeAll(items) + [Encode(last)];
    assert (EncodeAll(items) + [Encode(last)])[..|items|] == EncodeAll(items);
  }

  lemma {:induction false} DecodeEncodeAll(items: seq<Item>)
    requires forall i | 0 <= i < |items| :: Prepared(items[i])
    ensures DecodeAll(EncodeAll(items)) == Some(items)
  {
    if items == [] {
      assert EncodeAll(items) == [];
    } else {
      var k := |items| - 1;
      var before := items[..k];
      assert items == before + [items[k]];
      DecodeEncodeAll(before);
      DecodeEncode(items[k]);
      DecodeSnoc(before, items[k]);
    }
  }

  /** A manifest; its hash is taken over the encoded items, which stand for it. */
  datatype Manifest = Manifest(budget: int, reserved: int, tokenizer: string, items: seq<map<Key, Value>>, total: nat,
                               hash: seq<map<Key, Value>>)

  function ManifestOf(config: Config, items: seq<Item>, total: nat): Manifest {
    Manifest(config.budget, config.reserved, config.tokenizer, EncodeAll(items), total, EncodeAll(items))
  }

  /** The check made whenever a stored manifest is loaded. */
  predicate Intact(m: Manifest) {
    var items := DecodeAll(m.items);
    && items.Some?
    && m.hash == EncodeAll(items.value)
    && m.total == Sum(items.value)
    && m.budget > 0 && m.reserved >= 0 && m.total + m.reserved <= m.budget
    && m.tokenizer != ""
  }

  predicate AllPrepared(groups: Groups) {
    forall k, i | 0 <= k < |groups| && 0 <= i < |groups[k]| :: Prepared(groups[k][i])
  }

  lemma {:induction false} TakenAreItems(items: seq<Item>, limit: int, e: Item)
    requires e in Taken(items, limit)
    ensures e in items
  {
    var k := |items| - 1;
    if e in Taken(items[..k], limit) {
      TakenAreItems(items[..k], limit, e);
    }
  }

  lemma {:induction false} SelectedPrepared(config: Config, groups: Groups, k: nat)
    requires k <= |LAYERS| == |groups| && AllPrepared(groups) && Selected(config, groups, k).Some?
    ensures var s := Selected(config, groups, k).value; forall i | 0 <= i < |s| :: Prepared(s[i])
  {
    if k > 0 {
      SelectedPrepared(config, groups, k - 1);
      var before := Selected(config, groups, k - 1).value;
      var part := Taken(groups[k - 1], Limit(config, LAYERS[k - 1], Sum(before)));
      forall i | 0 <= i < |part|
        ensures Prepared(part[i])
      {
        TakenAreItems(groups[k - 1], Limit(config, LAYERS[k - 1], Sum(before)), part[i]);
      }
    }
  }

  /** Whatever is assembled from prepared items passes the check when it is loaded. */
  lemma {:induction false} ManifestsAreIntact(config: Config, groups: Groups)
    requires config.Valid() && |groups| == |LAYERS| && AllPrepared(groups)
    requires Selected(config, groups, |LAYERS|).Some?
    ensures var items := Selected(config, groups, |LAYERS|).value; Intact(ManifestOf(config, items, Sum(items)))
  {
    SelectedPrepared(config, groups, |LAYERS|);
    SelectedFits(config, groups, |LAYERS|);
    DecodeEncodeAll(Selected(config, groups, |LAYERS|).value);
  }
}
