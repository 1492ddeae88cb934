/** A YAML document as a graph of nodes, and what a shallow-merging decoder reads from it. */
module YamlNodes {
  type Id = nat

  const MERGE := "<<"

  /** A key-value pair of a mapping; the key "<<" is the merge key. */
  datatype Entry = Entry(key: string, value: Id)

  datatype Node =
    | Document(children: seq<Id>)
    | Sequence(items: seq<Id>)
    | Mapping(entries: seq<Entry>)
    | Scalar(text: string)
    | Alias(target: Id)

  type Store = map<Id, Node>
  type Rank = map<Id, nat>

  /** A decoded value. */
  datatype Tree = Leaf(text: string) | List(elems: seq<Tree>) | Dict(fields: map<string, Tree>)

  function Children(nd: Node): seq<Id> {
    match nd
    case Document(children) => children
    case Sequence(items) => items
    case Mapping(entries) => Vals(entries)
    case Scalar(_) => []
    case Alias(target) => [target]
  }

  /** The length of a node's content slice. */
  function ContentLength(nd: Node): nat {
    match nd
    case Document(children) => |children|
    case Sequence(items) => |items|
    case Mapping(entries) => 2 * |entries|
    case _ => 0
  }

  function Vals(es: seq<Entry>): seq<Id> {
    seq(|es|, i requires 0 <= i < |es| => es[i].value)
  }

  /** Aliases are acyclic: ranks decrease along every edge. */
  ghost predicate Ranked(s: Store, r: Rank) {
    forall x | x in s :: x in r && Below(s, r, x, s[x])
  }

  ghost predicate Below(s: Store, r: Rank, x: Id, nd: Node)
    requires x in r
  {
    forall i | 0 <= i < |Children(nd)| ::
      Children(nd)[i] in s && Children(nd)[i] in r && r[Children(nd)[i]] < r[x]
  }

  predicate UniqueKeys(es: seq<Entry>) {
    forall i, j | 0 <= i < j < |es| :: es[i].key != es[j].key
  }

  /** A mapping's entries as a map, the first occurrence of a key winning. */
  function EntryMap(es: seq<Entry>): map<string, Id> {
    if es == [] then map[] else EntryMap(es[1..])[es[0].key := es[0].value]
  }

  lemma {:induction false} EntryIndex(es: seq<Entry>, k: string) returns (i: nat)
    requires k in EntryMap(es)
    ensures i < |es| && es[i] == Entry(k, EntryMap(es)[k])
  {
    if es[0].key == k {
      i := 0;
    } else {
      i := EntryIndex(es[1..], k);
      i := i + 1;
    }
  }

  lemma {:induction false} EntryKey(es: seq<Entry>, i: nat)
    requires i < |es|
    ensures es[i].key in EntryMap(es)
    ensures UniqueKeys(es) ==> EntryMap(es)[es[i].key] == es[i].value
  {
    if i > 0 { EntryKey(es[1..], i - 1); }
  }

  function OwnMap(nd: Node): map<string, Id>
    requires nd.Mapping?
  {
    EntryMap(nd.entries) - {MERGE}
  }

  predicate HasMerge(nd: Node) {
    nd.Mapping? && MERGE in EntryMap(nd.entries)
  }

  lemma ChildOf(s: Store, r: Rank, n: Id, k: string)
    requires Ranked(s, r) && n in s && s[n].Mapping? && k in EntryMap(s[n].entries)
    ensures var c := EntryMap(s[n].entries)[k]; c in s && r[c] < r[n] && c in Children(s[n])
  {
    var es := s[n].entries;
    var i := EntryIndex(es, k);
    assert Children(s[n])[i] == es[i].value;
    assert Below(s, r, n, s[n]);
  }

  /** The nodes named in a merge value: one, or the items of a sequence. */
  function MergeItems(s: Store, n: Id): seq<Id>
    requires n in s
  {
    if !HasMerge(s[n]) then []
    else
      var v := EntryMap(s[n].entries)[MERGE];
      if v in s && s[v].Sequence? then s[v].items else [v]
  }

  ghost function Items(s: Store, r: Rank, n: Id): (items: seq<Id>)
    requires Ranked(s, r) && n in s
    ensures forall i | 0 <= i < |items| :: items[i] in s && r[items[i]] < r[n]
  {
    if HasMerge(s[n]) then
      ChildOf(s, r, n, MERGE);
      var v := EntryMap(s[n].entries)[MERGE];
      assert Below(s, r, v, s[v]);
      assert s[v].Sequence? ==> Children(s[v]) == s[v].items;
      MergeItems(s, n)
    else MergeItems(s, n)
  }

  /** The mapping a merge item stands for. */
  ghost function Deref(s: Store, r: Rank, i: Id): (t: Id)
    requires Ranked(s, r) && i in s
    ensures t in s && r[t] <= r[i]
  {
    if s[i].Alias? then
      assert Below(s, r, i, s[i]);
      assert Children(s[i])[0] == s[i].target;
      s[i].target
    else i
  }

  ghost function Source(s: Store, r: Rank, n: Id, j: nat): (t: Id)
    requires Ranked(s, r) && n in s && j < |Items(s, r, n)|
    ensures t in s && r[t] < r[n]
  {
    Deref(s, r, Items(s, r, n)[j])
  }

  /** The decoder accepts the merge values. */
  ghost predicate MergesMappings(s: Store, r: Rank)
    requires Ranked(s, r)
  {
    forall n, j | n in s && 0 <= j < |Items(s, r, n)| :: s[Source(s, r, n, j)].Mapping?
  }

  // ---------- Shallow decoding: the first source of a key wins ----------

  ghost function Shallow(s: Store, r: Rank, x: Id): (t: Tree)
    requires Ranked(s, r) && x in s
    ensures s[x].Mapping? ==> t == Dict(ShallowDict(s, r, x))
    decreases r[x], 3
  {
    assert Below(s, r, x, s[x]);
    match s[x]
    case Scalar(text) => Leaf(text)
    case Alias(target) => assert Children(s[x])[0] == target; Shallow(s, r, target)
    case Mapping(_) => Dict(ShallowDict(s, r, x))
    case _ => List(ShallowList(s, r, x))
  }

  ghost function ShallowList(s: Store, r: Rank, x: Id): (ts: seq<Tree>)
    requires Ranked(s, r) && x in s
    ensures |ts| == |Children(s[x])|
    decreases r[x], 2
  {
    assert Below(s, r, x, s[x]);
    seq(|Children(s[x])|, i requires 0 <= i < |Children(s[x])| => Shallow(s, r, Children(s[x])[i]))
  }

  /** A mapping's own entries win over its merge sources, earlier sources over later ones. */
  ghost function ShallowDict(s: Store, r: Rank, n: Id): map<string, Tree>
    requires Ranked(s, r) && n in s && s[n].Mapping?
    decreases r[n], 2
  {
    ShallowFrom(s, r, n, 0) + OwnTrees(s, r, n)
  }

  ghost function ShallowFrom(s: Store, r: Rank, n: Id, j: nat): map<string, Tree>
    requires Ranked(s, r) && n in s && s[n].Mapping? && j <= |Items(s, r, n)|
    decreases r[n], 1, |Items(s, r, n)| - j
  {
    if j == |Items(s, r, n)| then map[]
    else
      var t := Source(s, r, n, j);
      ShallowFrom(s, r, n, j + 1) + (if s[t].Mapping? then ShallowDict(s, r, t) else map[])
  }

  ghost function OwnTrees(s: Store, r: Rank, n: Id): (m: map<string, Tree>)
    requires Ranked(s, r) && n in s && s[n].Mapping?
    ensures m.Keys == OwnMap(s[n]).Keys
    decreases r[n], 1
  {
    map k | k in OwnMap(s[n]) :: ChildOf(s, r, n, k); Shallow(s, r, OwnMap(s[n])[k])
  }

  // ---------- Deep decoding: mapping-valued keys are united over the sources ----------

  predicate Literal(s: Store, n: Id, k: string) {
    n in s && s[n].Mapping? && k in OwnMap(s[n]) && OwnMap(s[n])[k] in s && s[OwnMap(s[n])[k]].Mapping?
  }

  predicate Aliased(s: Store, i: Id) {
    i in s && s[i].Alias? && s[i].target in s && s[s[i].target].Mapping?
  }

  ghost function Deep(s: Store, r: Rank, x: Id): (t: Tree)
    requires Ranked(s, r) && x in s
    ensures s[x].Mapping? ==> t == Dict(DeepDict(s, r, x))
    decreases r[x], 6
  {
    assert Below(s, r, x, s[x]);
    match s[x]
    case Scalar(text) => Leaf(text)
    case Alias(target) => assert Children(s[x])[0] == target; Deep(s, r, target)
    case Mapping(_) => Dict(DeepDict(s, r, x))
    case _ => List(DeepList(s, r, x))
  }

  ghost function DeepList(s: Store, r: Rank, x: Id): (ts: seq<Tree>)
    requires Ranked(s, r) && x in s
    ensures |ts| == |Children(s[x])|
    decreases r[x], 5
  {
    assert Below(s, r, x, s[x]);
    seq(|Children(s[x])|, i requires 0 <= i < |Children(s[x])| => Deep(s, r, Children(s[x])[i]))
  }

  /** As ShallowDict, except that a key with a literal mapping value somewhere is the union of them
      all, unless an own value of another kind stands in the way. */
  ghost function DeepDict(s: Store, r: Rank, n: Id): map<string, Tree>
    requires Ranked(s, r) && n in s && s[n].Mapping?
    decreases r[n], 5
  {
    DeepFrom(s, r, n, 0) + Explicit(s, r, n)
  }

  /** What a mapping has without its merge key: its own values, and the united ones. */
  ghost function Explicit(s: Store, r: Rank, n: Id): map<string, Tree>
    requires Ranked(s, r) && n in s && s[n].Mapping?
    decreases r[n], 4
  {
    OwnDeep(s, r, n) + (map k | k in UnitedKeys(s, r, n) :: Dict(UnitedDict(s, r, n, k)))
  }

  ghost function UnitedKeys(s: Store, r: Rank, n: Id): (ks: set<string>)
    requires Ranked(s, r) && n in s && s[n].Mapping?
    ensures ks <= LiteralKeys(s, r, n)
    decreases r[n], 3, 2
  {
    set k | k in LiteralKeys(s, r, n) && !Withstands(s, r, n, k)
  }

  /** An own value that is no mapping is kept when its content is at least as long as the union's, in
      which a sub-key counts two. */
  ghost predicate Withstands(s: Store, r: Rank, n: Id, k: string)
    requires Ranked(s, r) && n in s && s[n].Mapping?
    decreases r[n], 3, 1
  {
    && k in OwnMap(s[n]) && OwnMap(s[n])[k] in s && !s[OwnMap(s[n])[k]].Mapping?
    && 2 * SubKeys(s, r, n, k) <= ContentLength(s[OwnMap(s[n])[k]])
  }

  /** The sub-keys collected for a key, a merge key among them included. */
  ghost function SubKeys(s: Store, r: Rank, n: Id, k: string): nat
    requires Ranked(s, r) && n in s && s[n].Mapping?
    decreases r[n], 3, 0
  {
    |Union(s, r, n, k)| + (if CarrierOf(s, r, n, k).By? then 1 else 0)
  }

  /** The value of a united key: the union, and what is read through the merge key it carries. */
  ghost function UnitedDict(s: Store, r: Rank, n: Id, k: string): map<string, Tree>
    requires Ranked(s, r) && n in s && s[n].Mapping?
    decreases r[n], 3
  {
    Carried(s, r, n, k) + Union(s, r, n, k)
  }

  ghost function Carried(s: Store, r: Rank, n: Id, k: string): map<string, Tree>
    requires Ranked(s, r) && n in s && s[n].Mapping?
    decreases r[n], 2, 1
  {
    match CarrierOf(s, r, n, k)
    case Nobody => map[]
    case By(c) => DeepFrom(s, r, c, 0)
  }

  /** The literal mapping whose merge key is carried into a union. */
  datatype Carrier = Nobody | By(mapping: Id)

  /** A merge key is collected like a sub-key: the first literal mapping that has one brings it. */
  ghost function CarrierOf(s: Store, r: Rank, n: Id, k: string): (c: Carrier)
    requires Ranked(s, r) && n in s && s[n].Mapping?
    ensures c.By? ==> c.mapping in s && HasMerge(s[c.mapping]) && r[c.mapping] < r[n]
    decreases r[n], 2, 0
  {
    if Literal(s, n, k) && HasMerge(s[OwnMap(s[n])[k]]) then ChildOf(s, r, n, k); By(OwnMap(s[n])[k])
    else CarrierFrom(s, r, n, 0, k)
  }

  ghost function CarrierFrom(s: Store, r: Rank, n: Id, j: nat, k: string): (c: Carrier)
    requires Ranked(s, r) && n in s && s[n].Mapping? && j <= |Items(s, r, n)|
    ensures c.By? ==> c.mapping in s && HasMerge(s[c.mapping]) && r[c.mapping] < r[n]
    decreases r[n], 1, |Items(s, r, n)| - j
  {
    if j == |Items(s, r, n)| then Nobody
    else
      var i := Items(s, r, n)[j];
      var first :=
        if Aliased(s, i) then assert Source(s, r, n, j) == s[i].target; CarrierOf(s, r, s[i].target, k)
        else Nobody;
      if first.By? then first else CarrierFrom(s, r, n, j + 1, k)
  }

  ghost function DeepFrom(s: Store, r: Rank, n: Id, j: nat): map<string, Tree>
    requires Ranked(s, r) && n in s && s[n].Mapping? && j <= |Items(s, r, n)|
    decreases r[n], 3, |Items(s, r, n)| - j
  {
    if j == |Items(s, r, n)| then map[]
    else
      var t := Source(s, r, n, j);
      DeepFrom(s, r, n, j + 1) + (if s[t].Mapping? then DeepDict(s, r, t) else map[])
  }

  ghost function OwnDeep(s: Store, r: Rank, n: Id): (m: map<string, Tree>)
    requires Ranked(s, r) && n in s && s[n].Mapping?
    ensures m.Keys == OwnMap(s[n]).Keys
    decreases r[n], 3
  {
    map k | k in OwnMap(s[n]) :: ChildOf(s, r, n, k); Deep(s, r, OwnMap(s[n])[k])
  }

  /** The sub-keys of a key, over the node's own literal value and then, depth first, those of the
      mappings it merges through aliases; the first occurrence of a sub-key wins. */
  ghost function Union(s: Store, r: Rank, n: Id, k: string): map<string, Tree>
    requires Ranked(s, r) && n in s && s[n].Mapping?
    decreases r[n], 2, 1
  {
    UnionFrom(s, r, n, 0, k) + OwnLiteral(s, r, n, k)
  }

  ghost function OwnLiteral(s: Store, r: Rank, n: Id, k: string): map<string, Tree>
    requires Ranked(s, r) && n in s && s[n].Mapping?
    decreases r[n], 2, 0
  {
    if Literal(s, n, k) then ChildOf(s, r, n, k); Explicit(s, r, OwnMap(s[n])[k]) else map[]
  }

  ghost function UnionFrom(s: Store, r: Rank, n: Id, j: nat, k: string): map<string, Tree>
    requires Ranked(s, r) && n in s && s[n].Mapping? && j <= |Items(s, r, n)|
    decreases r[n], 1, |Items(s, r, n)| - j
  {
    if j == |Items(s, r, n)| then map[]
    else
      var i := Items(s, r, n)[j];
      UnionFrom(s, r, n, j + 1, k)
      + (if Aliased(s, i) then assert Source(s, r, n, j) == s[i].target; Union(s, r, s[i].target, k) else map[])
  }

  /** The keys with a non-empty literal mapping value in the node or a mapping it merges. */
  ghost function LiteralKeys(s: Store, r: Rank, n: Id): set<string>
    requires Ranked(s, r) && n in s && s[n].Mapping?
    decreases r[n], 2
  {
    OwnLiteralKeys(s, n) + LiteralKeysFrom(s, r, n, 0)
  }

  function OwnLiteralKeys(s: Store, n: Id): set<string>
    requires n in s && s[n].Mapping?
  {
    set k | k in OwnMap(s[n]) && Literal(s, n, k) && s[OwnMap(s[n])[k]].entries != []
  }

  ghost function LiteralKeysFrom(s: Store, r: Rank, n: Id, j: nat): set<string>
    requires Ranked(s, r) && n in s && s[n].Mapping? && j <= |Items(s, r, n)|
    decreases r[n], 1, |Items(s, r, n)| - j
  {
    if j == |Items(s, r, n)| then {}
    else
      var i := Items(s, r, n)[j];
      LiteralKeysFrom(s, r, n, j + 1)
      + (if Aliased(s, i) then assert Source(s, r, n, j) == s[i].target; LiteralKeys(s, r, s[i].target) else {})
  }

  // ---------- Decoding depends only on what is reachable ----------

  ghost predicate Closed(s: Store, d: set<Id>) {
    forall x | x in d :: x in s && Within(s[x], d)
  }

  ghost predicate Within(nd: Node, d: set<Id>) {
    forall i | 0 <= i < |Children(nd)| :: Children(nd)[i] in d
  }

  /** The second store keeps the nodes of a closed part of the first. */
  ghost predicate Agree(s: Store, r: Rank, s': Store, r': Rank, d: set<Id>) {
    Ranked(s, r) && Ranked(s', r') && Closed(s, d) && forall x | x in d :: x in s' && s'[x] == s[x]
  }

  lemma ChildWithin(s: Store, d: set<Id>, n: Id, k: string)
    requires Closed(s, d) && n in d && s[n].Mapping? && k in EntryMap(s[n].entries)
    ensures EntryMap(s[n].entries)[k] in d
  {
    var es := s[n].entries;
    var i := EntryIndex(es, k);
    assert Within(s[n], d);
    assert Children(s[n])[i] == es[i].value;
  }

  lemma ItemsWithin(s: Store, r: Rank, d: set<Id>, n: Id)
    requires Ranked(s, r) && Closed(s, d) && n in d
    ensures forall j | 0 <= j < |Items(s, r, n)| :: Items(s, r, n)[j] in d && Source(s, r, n, j) in d
  {
    if HasMerge(s[n]) {
      ChildWithin(s, d, n, MERGE);
      var v := EntryMap(s[n].entries)[MERGE];
      assert Within(s[v], d);
      assert s[v].Sequence? ==> Children(s[v]) == s[v].items;
      forall j | 0 <= j < |Items(s, r, n)|
        ensures Items(s, r, n)[j] in d && Source(s, r, n, j) in d
      {
        var i := Items(s, r, n)[j];
        assert i in d;
        assert Within(s[i], d);
        if s[i].Alias? { assert Children(s[i])[0] == s[i].target; }
      }
    }
  }

  lemma ItemsAgree(s: Store, r: Rank, s': Store, r': Rank, d: set<Id>, n: Id)
    requires Agree(s, r, s', r', d) && n in d
    ensures Items(s', r', n) == Items(s, r, n)
    ensures forall j | 0 <= j < |Items(s, r, n)| ::
              Items(s, r, n)[j] in d && Source(s, r, n, j) in d && Source(s', r', n, j) == Source(s, r, n, j)
  {
    ItemsWithin(s, r, d, n);
    if HasMerge(s[n]) {
      ChildWithin(s, d, n, MERGE);
    }
  }

  lemma {:induction false} ShallowAgrees(s: Store, r: Rank, s': Store, r': Rank, d: set<Id>, x: Id)
    requires Agree(s, r, s', r', d) && x in d
    ensures Shallow(s', r', x) == Shallow(s, r, x)
    decreases r[x], 3
  {
    if s[x].Mapping? {
      ShallowDictAgrees(s, r, s', r', d, x);
    } else {
      assert Within(s[x], d) && Below(s, r, x, s[x]);
      forall i | 0 <= i < |Children(s[x])|
        ensures Shallow(s', r', Children(s[x])[i]) == Shallow(s, r, Children(s[x])[i])
      {
        ShallowAgrees(s, r, s', r', d, Children(s[x])[i]);
      }
      if s[x].Alias? {
        assert Children(s[x])[0] == s[x].target;
      } else {
        assert ShallowList(s', r', x) == ShallowList(s, r, x);
      }
    }
  }

  lemma {:induction false} ShallowDictAgrees(s: Store, r: Rank, s': Store, r': Rank, d: set<Id>, n: Id)
    requires Agree(s, r, s', r', d) && n in d && s[n].Mapping?
    ensures ShallowDict(s', r', n) == ShallowDict(s, r, n)
    ensures OwnTrees(s', r', n) == OwnTrees(s, r, n)
    decreases r[n], 2
  {
    hide Shallow, ShallowFrom, Below, Children;
    ShallowFromAgrees(s, r, s', r', d, n, 0);
    forall k | k in OwnMap(s[n])
      ensures OwnTrees(s', r', n)[k] == OwnTrees(s, r, n)[k]
    {
      ChildOf(s, r, n, k);
      ChildOf(s', r', n, k);
      ChildWithin(s, d, n, k);
      ShallowAgrees(s, r, s', r', d, OwnMap(s[n])[k]);
    }
    assert OwnTrees(s', r', n) == OwnTrees(s, r, n);
  }

  lemma {:induction false} ShallowFromAgrees(s: Store, r: Rank, s': Store, r': Rank, d: set<Id>, n: Id, j: nat)
    requires Agree(s, r, s', r', d) && n in d && s[n].Mapping? && j <= |Items(s, r, n)|
    ensures |Items(s', r', n)| == |Items(s, r, n)|
    ensures ShallowFrom(s', r', n, j) == ShallowFrom(s, r, n, j)
    decreases r[n], 1, |Items(s, r, n)| - j
  {
    ItemsAgree(s, r, s', r', d, n);
    if j < |Items(s, r, n)| {
      var t := Source(s, r, n, j);
      if s[t].Mapping? { ShallowDictAgrees(s, r, s', r', d, t); }
      ShallowFromAgrees(s, r, s', r', d, n, j + 1);
    }
  }
}
