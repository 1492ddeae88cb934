/** Documents whose fixed form does not read what the comments of the rewriting promise. */
module DeepMergeDocuments {
  import opened YamlNodes
  import opened DeepMerge
  import opened DeepMergeMeaning
  import opened DeepMergeRewrite
  import opened DeepMergeReading
  import opened DeepMergeUnions
  import opened YamlFix

  const ONE := map["x" := Leaf("one")]
  const TWO := map["y" := Leaf("two")]
  const BOTH := map["x" := Leaf("one"), "y" := Leaf("two")]

  // ---------- Small mappings ----------

  lemma EntryMaps(a: Entry, b: Entry)
    ensures EntryMap([a]) == map[a.key := a.value]
    ensures a.key != b.key ==> EntryMap([a, b]) == map[a.key := a.value, b.key := b.value]
  {
    assert [a, b][1..] == [b] && [a][1..] == [];
    assert EntryMap([b]) == map[b.key := b.value] by { assert [b][1..] == []; }
  }

  lemma OneEntry(s: Store, r: Rank, n: Id, k: string, c: Id)
    requires Ranked(s, r) && n in s && s[n] == Mapping([Entry(k, c)]) && k != MERGE
    ensures !HasMerge(s[n]) && Items(s, r, n) == [] && OwnMap(s[n]) == map[k := c] && c in s
    ensures DeepDict(s, r, n) == map[k := Deep(s, r, c)]
  {
    hide EntryMap, Deep, DeepDict;
    EntryMaps(Entry(k, c), Entry(k, c));
    ChildOf(s, r, n, k);
    PlainExplicit(s, r, n);
    assert OwnDeep(s, r, n) == map[k := Deep(s, r, c)];
  }

  /** A mapping of one key with a scalar. */
  lemma LeafEntry(s: Store, r: Rank, n: Id, k: string, c: Id)
    requires Ranked(s, r) && n in s && s[n] == Mapping([Entry(k, c)]) && k != MERGE && c in s && s[c].Scalar?
    ensures !HasMerge(s[n]) && DeepDict(s, r, n) == map[k := Leaf(s[c].text)]
  {
    hide EntryMap, DeepDict, Items;
    OneEntry(s, r, n, k, c);
    ReadsALeaf(s, r, c);
  }

  /** A mapping without merge key reads its values. */
  lemma PlainKey(s: Store, r: Rank, n: Id, i: nat)
    requires Ranked(s, r) && n in s && s[n].Mapping? && UniqueKeys(s[n].entries) && i < |s[n].entries|
    requires forall j | 0 <= j < |s[n].entries| :: s[n].entries[j].key != MERGE
    ensures var e := s[n].entries[i];
            && !HasMerge(s[n]) && e.value in s
            && e.key in DeepDict(s, r, n) && DeepDict(s, r, n)[e.key] == Deep(s, r, e.value)
  {
    hide EntryMap, Deep, DeepDict, Explicit, Ranked, Items;
    var e := s[n].entries[i];
    EntryKey(s[n].entries, i);
    ChildOf(s, r, n, e.key);
    if HasMerge(s[n]) {
      var j := EntryIndex(s[n].entries, MERGE);
      assert false;
    }
    PlainExplicit(s, r, n);
  }

  lemma PlainKeyShallow(s: Store, r: Rank, n: Id, i: nat)
    requires Ranked(s, r) && n in s && s[n].Mapping? && UniqueKeys(s[n].entries) && i < |s[n].entries|
    requires s[n].entries[i].key != MERGE
    ensures var e := s[n].entries[i];
            e.value in s && e.key in ShallowDict(s, r, n) && ShallowDict(s, r, n)[e.key] == Shallow(s, r, e.value)
  {
    hide EntryMap, Shallow, ShallowFrom, Ranked, Items;
    EntryKey(s[n].entries, i);
    ChildOf(s, r, n, s[n].entries[i].key);
  }

  /** A document of one mapping whose value for top is the mapping d. */
  ghost predicate TopReads(t: Tree, d: map<string, Tree>) {
    t.List? && |t.elems| == 1 && t.elems[0].Dict? && "top" in t.elems[0].fields && t.elems[0].fields["top"] == Dict(d)
  }

  lemma DocumentReads(s: Store, r: Rank, x: Id, i: nat, top: Id)
    requires Ranked(s, r) && 0 in s && s[0] == Document([x]) && x in s && s[x].Mapping? && UniqueKeys(s[x].entries)
    requires i < |s[x].entries| && s[x].entries[i] == Entry("top", top) && top in s && s[top].Mapping?
    requires forall j | 0 <= j < |s[x].entries| :: s[x].entries[j].key != MERGE
    ensures !HasMerge(s[x]) && TopReads(Deep(s, r, 0), DeepDict(s, r, top))
            && TopReads(Shallow(s, r, 0), ShallowDict(s, r, top))
  {
    hide EntryMap, DeepDict, ShallowDict, Ranked;
    PlainKey(s, r, x, i);
    PlainKeyShallow(s, r, x, i);
    assert Children(s[0]) == [x];
    assert DeepList(s, r, 0) == [Deep(s, r, x)] && ShallowList(s, r, 0) == [Shallow(s, r, x)];
  }

  // ---------- A mapping that merges one mapping with the same key ----------

  /** n is {<<: i, k: v}, and i is, or is an alias of, the mapping t, which is {k: m}. */
  ghost predicate Merging(s: Store, r: Rank, n: Id, k: string, i: Id, v: Id, t: Id, m: Id) {
    && Ranked(s, r) && k != MERGE
    && n in s && s[n] == Mapping([Entry(MERGE, i), Entry(k, v)])
    && t in s && s[t] == Mapping([Entry(k, m)]) && m in s
    && i in s && (i == t || s[i] == Alias(t))
  }

  lemma MergingShape(s: Store, r: Rank, n: Id, k: string, i: Id, v: Id, t: Id, m: Id)
    requires Merging(s, r, n, k, i, v, t, m)
    ensures HasMerge(s[n]) && Items(s, r, n) == [i] && Source(s, r, n, 0) == t && OwnMap(s[n]) == map[k := v] && v in s
    ensures Items(s, r, t) == [] && OwnMap(s[t]) == map[k := m]
    ensures DeepDict(s, r, n).Keys == {k} && ShallowDict(s, r, n) == map[k := Shallow(s, r, v)]
  {
    hide EntryMap, Ranked, DeepDict, ShallowDict, OwnMap, Deep;
    MergingItem(s, r, n, k, i, v);
    OneEntry(s, r, t, k, m);
    DeepKeys(s, r, n);
    DeepKeys(s, r, t);
    MergedKeys(s, r, n, t);
    PlainKeyShallow(s, r, n, 1);
  }

  lemma MergingItem(s: Store, r: Rank, n: Id, k: string, i: Id, v: Id)
    requires Ranked(s, r) && n in s && s[n] == Mapping([Entry(MERGE, i), Entry(k, v)]) && k != MERGE && i in s
             && !s[i].Sequence?
    ensures HasMerge(s[n]) && Items(s, r, n) == [i] && OwnMap(s[n]) == map[k := v] && v in s
  {
    hide EntryMap, Ranked;
    EntryMaps(Entry(MERGE, i), Entry(k, v));
    ChildOf(s, r, n, k);
    assert map[MERGE := i, k := v] - {MERGE} == map[k := v];
  }

  lemma MergedKeys(s: Store, r: Rank, n: Id, t: Id)
    requires Ranked(s, r) && n in s && s[n].Mapping? && |Items(s, r, n)| == 1 && Source(s, r, n, 0) == t
             && s[t].Mapping?
    ensures ShallowDict(s, r, n).Keys == ShallowDict(s, r, t).Keys + OwnMap(s[n]).Keys
  {
    hide EntryMap, Items, Shallow;
    assert ShallowFrom(s, r, n, 1) == map[];
    assert ShallowFrom(s, r, n, 0) == ShallowFrom(s, r, n, 1) + ShallowDict(s, r, t);
  }

  /** What the source adds: its literal value when it is merged through an alias. */
  lemma FromSource(s: Store, r: Rank, n: Id, k: string, i: Id, v: Id, t: Id, m: Id)
    requires Merging(s, r, n, k, i, v, t, m) && !HasMerge(s[m])
    ensures |Items(s, r, n)| == 1 && CarrierFrom(s, r, n, 0, k) == Nobody
    ensures UnionFrom(s, r, n, 0, k) == if s[i].Alias? && s[m].Mapping? then DeepDict(s, r, m) else map[]
    ensures s[i].Alias? && s[m].Mapping? && s[m].entries != [] ==> k in LiteralKeysFrom(s, r, n, 0)
  {
    hide EntryMap, Ranked, DeepDict, OwnMap, Items, Deep, Explicit;
    MergingShape(s, r, n, k, i, v, t, m);
    NoSources(s, r, t, k);
    if s[m].Mapping? { PlainExplicit(s, r, m); }
    assert UnionFrom(s, r, n, 1, k) == map[] && CarrierFrom(s, r, n, 1, k) == Nobody
           && LiteralKeysFrom(s, r, n, 1) == {};
    assert s[i].Alias? ==> Aliased(s, i) && s[i].target == t;
    assert Union(s, r, t, k) == OwnLiteral(s, r, t, k);
  }

  lemma NoSources(s: Store, r: Rank, t: Id, k: string)
    requires Ranked(s, r) && t in s && s[t].Mapping? && Items(s, r, t) == []
    ensures UnionFrom(s, r, t, 0, k) == map[] && CarrierFrom(s, r, t, 0, k) == Nobody
            && LiteralKeysFrom(s, r, t, 0) == {}
  {}

  /** The literal mapping of a source merged through an alias is read instead of a scalar or an alias. */
  lemma SourceWins(s: Store, r: Rank, n: Id, k: string, i: Id, v: Id, t: Id, m: Id)
    requires Merging(s, r, n, k, i, v, t, m) && s[i].Alias? && s[m].Mapping? && s[m].entries != [] && !HasMerge(s[m])
    requires v in s && (s[v].Scalar? || s[v].Alias?)
    ensures k in UnitedKeys(s, r, n) && DeepDict(s, r, n) == map[k := Dict(DeepDict(s, r, m))]
  {
    hide EntryMap, Ranked, DeepDict, OwnMap, Items, Deep, UnionFrom, CarrierFrom, LiteralKeysFrom, HasMerge, UnitedKeys,
         UnitedDict;
    hide Union, CarrierOf, LiteralKeys, SubKeys, ShallowDict;
    MergingShape(s, r, n, k, i, v, t, m);
    FromSource(s, r, n, k, i, v, t, m);
    SourcesAlone(s, r, n, k);
    LiteralKeysCount(s, r, n, k);
    UnitedIff(s, r, n, k);
    NoCarrier(s, r, n, k);
    DeepNext(s, r, n, k);
  }

  lemma SourcesAlone(s: Store, r: Rank, n: Id, k: string)
    requires Ranked(s, r) && n in s && s[n].Mapping? && !Literal(s, n, k)
    ensures Union(s, r, n, k) == UnionFrom(s, r, n, 0, k) && CarrierOf(s, r, n, k) == CarrierFrom(s, r, n, 0, k)
    ensures LiteralKeysFrom(s, r, n, 0) <= LiteralKeys(s, r, n)
  {
    hide UnionFrom, CarrierFrom, LiteralKeysFrom, OwnMap, Items;
  }

  lemma NoCarrier(s: Store, r: Rank, n: Id, k: string)
    requires Ranked(s, r) && n in s && s[n].Mapping? && CarrierOf(s, r, n, k) == Nobody
    ensures UnitedDict(s, r, n, k) == Union(s, r, n, k)
  {
    hide Union, CarrierOf;
  }

  /** The own literal mapping is read alone when the source is merged in place or its value is no literal. */
  lemma OwnStays(s: Store, r: Rank, n: Id, k: string, i: Id, v: Id, t: Id, m: Id)
    requires Merging(s, r, n, k, i, v, t, m) && (i == t || !s[m].Mapping?) && !HasMerge(s[m])
    requires v in s && s[v].Mapping? && s[v].entries != [] && !HasMerge(s[v])
    ensures k in UnitedKeys(s, r, n) && DeepDict(s, r, n) == map[k := Dict(DeepDict(s, r, v))]
  {
    hide EntryMap, Ranked, DeepDict, OwnMap, Items, Deep, UnionFrom, CarrierFrom, LiteralKeysFrom, HasMerge, UnitedKeys,
         UnitedDict, Explicit, SubKeys;
    MergingShape(s, r, n, k, i, v, t, m);
    FromSource(s, r, n, k, i, v, t, m);
    PlainExplicit(s, r, v);
    UnitedIff(s, r, n, k);
    assert k in OwnLiteralKeys(s, n);
    NoCarrier(s, r, n, k);
    assert Union(s, r, n, k) == DeepDict(s, r, v);
    DeepNext(s, r, n, k);
  }

  /** The union over both, whose values are, or are aliases of, the mappings a and b. */
  lemma AllUnionOfTwo(s: Store, r: Rank, n: Id, k: string, i: Id, v: Id, t: Id, m: Id, a: Id, b: Id)
    requires Merging(s, r, n, k, i, v, t, m) && v in s
    requires a in s && s[a].Mapping? && (v == a || s[v] == Alias(a)) && b in s && s[b].Mapping?
             && (m == b || s[m] == Alias(b))
    ensures AllUnion(s, r, n, k) == DeepDict(s, r, b) + DeepDict(s, r, a)
  {
    hide EntryMap, Ranked, DeepDict, ShallowDict, OwnMap, Items, Deep, Shallow, OwnValue;
    MergingShape(s, r, n, k, i, v, t, m);
    ValueIs(s, r, n, k, v, a);
    ValueIs(s, r, t, k, m, b);
    assert AllUnionFrom(s, r, t, 0, k) == map[] && AllUnionFrom(s, r, n, 1, k) == map[];
    AllUnionStep(s, r, n, 0, k);
  }

  lemma ValueIs(s: Store, r: Rank, n: Id, k: string, v: Id, m: Id)
    requires Ranked(s, r) && n in s && s[n].Mapping? && k in OwnMap(s[n]) && OwnMap(s[n])[k] == v
    requires v in s && m in s && (v == m || s[v] == Alias(m)) && s[m].Mapping?
    ensures OwnValue(s, r, n, k) == DeepDict(s, r, m)
  {
    hide EntryMap, OwnMap, Deep, Shallow;
    assert Meant(s, r, m) == m;
    if s[v].Alias? { assert Below(s, r, v, s[v]) && Children(s[v])[0] == m; }
    assert Meant(s, r, v) == m;
  }

  /** A node that merges one mapping if anything. */
  ghost predicate MergesOne(s: Store, r: Rank, x: Id)
    requires Ranked(s, r) && x in s
  {
    HasMerge(s[x]) ==> |Items(s, r, x)| == 1 && s[Source(s, r, x, 0)].Mapping?
  }

  lemma AllMergeOne(s: Store, r: Rank)
    requires Ranked(s, r) && forall x | x in s && s[x].Mapping? :: UniqueKeys(s[x].entries)
    requires forall x | x in s && s[x].Mapping? :: MergesOne(s, r, x)
    ensures Wf(s, r)
  {
    hide EntryMap, Items, Ranked;
    forall x, j | x in s && 0 <= j < |Items(s, r, x)| ensures s[Source(s, r, x, j)].Mapping? { NoItems(s, r, x); }
  }

  lemma NoMerge(nd: Node)
    requires !nd.Mapping?
    ensures !HasMerge(nd)
  {}

  // ---------- A mapping of a merge key only ----------

  /** n is {<<: i}, and i is, or is an alias of, the mapping t. */
  ghost predicate MergingOnly(s: Store, r: Rank, n: Id, i: Id, t: Id) {
    && Ranked(s, r) && n in s && s[n] == Mapping([Entry(MERGE, i)])
    && t in s && s[t].Mapping? && i in s && (i == t || s[i] == Alias(t))
  }

  lemma OnlyShape(s: Store, r: Rank, n: Id, i: Id, t: Id)
    requires MergingOnly(s, r, n, i, t)
    ensures HasMerge(s[n]) && Items(s, r, n) == [i] && Source(s, r, n, 0) == t && OwnMap(s[n]) == map[]
    ensures LiteralKeys(s, r, n) == if s[i].Alias? then LiteralKeys(s, r, t) else {}
  {
    hide EntryMap, Ranked;
    EntryMaps(Entry(MERGE, i), Entry(MERGE, i));
    assert LiteralKeysFrom(s, r, n, 1) == {};
    assert s[i].Alias? <==> Aliased(s, i);
    assert LiteralKeysFrom(s, r, n, 0) == if s[i].Alias? then LiteralKeys(s, r, t) else {};
  }

  /** It reads what it merges when no key is united. */
  lemma OnlyReads(s: Store, r: Rank, n: Id, i: Id, t: Id)
    requires MergingOnly(s, r, n, i, t) && LiteralKeys(s, r, n) == {}
    ensures Explicit(s, r, n) == map[] && DeepFrom(s, r, n, 0) == DeepDict(s, r, t)
            && DeepDict(s, r, n) == DeepDict(s, r, t)
    ensures ShallowDict(s, r, n) == ShallowDict(s, r, t)
  {
    hide EntryMap, Ranked, Items, LiteralKeys, OwnMap;
    OnlyShape(s, r, n, i, t);
    ExplicitByKey(s, r, n);
    OneSource(s, r, n, t);
    OneSourceShallow(s, r, n, t);
  }

  lemma OneSource(s: Store, r: Rank, n: Id, t: Id)
    requires Ranked(s, r) && n in s && s[n].Mapping? && |Items(s, r, n)| == 1 && Source(s, r, n, 0) == t
             && s[t].Mapping?
    ensures DeepFrom(s, r, n, 0) == DeepDict(s, r, t)
  {
    hide Items, DeepDict;
    assert DeepFrom(s, r, n, 1) == map[];
  }

  lemma OneSourceShallow(s: Store, r: Rank, n: Id, t: Id)
    requires Ranked(s, r) && n in s && s[n].Mapping? && |Items(s, r, n)| == 1 && Source(s, r, n, 0) == t
             && s[t].Mapping?
    requires OwnMap(s[n]) == map[]
    ensures ShallowDict(s, r, n) == ShallowDict(s, r, t)
  {
    hide Items, OwnMap, Shallow;
    assert ShallowFrom(s, r, n, 1) == map[];
    assert ShallowFrom(s, r, n, 0) == ShallowFrom(s, r, n, 1) + ShallowDict(s, r, t);
  }

  // ---------- A scalar and a merged mapping for one key ----------

  ghost function TextRank(): Rank {
    map[0 := 6, 1 := 5, 2 := 2, 3 := 1, 4 := 0, 5 := 4, 6 := 3, 7 := 0]
  }

  /** base: &b {k: {x: one}}
      top: {<<: *b, k: text} */
  ghost predicate IsText(s: Store) {
    && s.Keys == {0, 1, 2, 3, 4, 5, 6, 7}
    && s[0] == Document([1]) && s[1] == Mapping([Entry("base", 2), Entry("top", 5)])
    && s[2] == Mapping([Entry("k", 3)]) && s[3] == Mapping([Entry("x", 4)]) && s[4] == Scalar("one")
    && s[5] == Mapping([Entry(MERGE, 6), Entry("k", 7)]) && s[6] == Alias(2) && s[7] == Scalar("text")
  }

  lemma TextRanked(s: Store)
    requires IsText(s)
    ensures Ranked(s, TextRank())
  {
    assert Children(s[0]) == [1] && Children(s[1]) == [2, 5] && Children(s[2]) == [3] && Children(s[3]) == [4];
    assert Children(s[4]) == [] && Children(s[5]) == [6, 7] && Children(s[6]) == [2] && Children(s[7]) == [];
    hide Children;
  }

  lemma TextWf(s: Store, r: Rank)
    requires IsText(s) && Ranked(s, r)
    ensures Wf(s, r)
  {
    hide EntryMap, DeepDict, ShallowDict, Items, OwnMap, Ranked, HasMerge, Deep, Shallow;
    assert MergesOne(s, r, 1) by { PlainKey(s, r, 1, 0); }
    assert MergesOne(s, r, 2) by { OneEntry(s, r, 2, "k", 3); }
    assert MergesOne(s, r, 3) by { OneEntry(s, r, 3, "x", 4); }
    assert MergesOne(s, r, 5) by { MergingShape(s, r, 5, "k", 6, 7, 2, 3); }
    hide MergesOne;
    AllMergeOne(s, r);
  }

  lemma TextReads(s: Store, r: Rank)
    requires IsText(s) && Ranked(s, r)
    ensures TopReads(Shallow(s, r, 0), map["k" := Leaf("text")]) && TopReads(Deep(s, r, 0), map["k" := Dict(ONE)])
  {
    hide EntryMap, DeepDict, ShallowDict, Items, OwnMap, Ranked, UnitedKeys, HasMerge, TopReads, Deep;
    DocumentReads(s, r, 1, 1, 5);
    LeafEntry(s, r, 3, "x", 4);
    MergingShape(s, r, 5, "k", 6, 7, 2, 3);
    SourceWins(s, r, 5, "k", 6, 7, 2, 3);
  }

  /** The scalar under top is lost to the mapping of the merged base. */
  method LoseScalar(doc: YamlDocument)
    requires IsText(doc.nodes) && doc.next == 8
    modifies doc
    ensures Ranked(old(doc.nodes), TextRank())
            && TopReads(Shallow(old(doc.nodes), TextRank(), 0), map["k" := Leaf("text")])
    ensures Ranked(doc.nodes, doc.rank) && 0 in doc.nodes
            && TopReads(Shallow(doc.nodes, doc.rank, 0), map["k" := Dict(ONE)])
  {
    hide Deep, Shallow, Ranked, Wf, Reach;
    TextRanked(doc.nodes);
    TextWf(doc.nodes, TextRank());
    TextReads(doc.nodes, TextRank());
    doc.FixDocument(0, TextRank());
  }

  // ---------- The same, on the way to a scalar ----------

  ghost function NestedRank(): Rank {
    map[0 := 7, 1 := 6, 2 := 2, 3 := 1, 4 := 0, 5 := 5, 6 := 4, 7 := 3, 8 := 0]
  }

  /** base: &b {k: {x: one}}
      top: {<<: {<<: *b, k: text}} */
  ghost predicate IsNested(s: Store) {
    && s.Keys == {0, 1, 2, 3, 4, 5, 6, 7, 8}
    && s[0] == Document([1]) && s[1] == Mapping([Entry("base", 2), Entry("top", 5)])
    && s[2] == Mapping([Entry("k", 3)]) && s[3] == Mapping([Entry("x", 4)]) && s[4] == Scalar("one")
    && s[5] == Mapping([Entry(MERGE, 6)])
    && s[6] == Mapping([Entry(MERGE, 7), Entry("k", 8)]) && s[7] == Alias(2) && s[8] == Scalar("text")
  }

  lemma NestedRanked(s: Store)
    requires IsNested(s)
    ensures Ranked(s, NestedRank())
  {
    assert Children(s[0]) == [1] && Children(s[1]) == [2, 5] && Children(s[2]) == [3] && Children(s[3]) == [4];
    assert Children(s[4]) == [] && Children(s[5]) == [6] && Children(s[6]) == [7, 8] && Children(s[7]) == [2];
    assert Children(s[8]) == [];
    hide Children;
  }

  lemma NestedWf(s: Store, r: Rank)
    requires IsNested(s) && Ranked(s, r)
    ensures Wf(s, r)
  {
    hide EntryMap, DeepDict, ShallowDict, Items, OwnMap, Ranked, LiteralKeys, HasMerge, Deep, Shallow;
    assert MergesOne(s, r, 1) by { PlainKey(s, r, 1, 0); }
    assert MergesOne(s, r, 2) by { OneEntry(s, r, 2, "k", 3); }
    assert MergesOne(s, r, 3) by { OneEntry(s, r, 3, "x", 4); }
    assert MergesOne(s, r, 6) by { MergingShape(s, r, 6, "k", 7, 8, 2, 3); }
    assert MergesOne(s, r, 5) by { OnlyShape(s, r, 5, 6, 6); }
    hide MergesOne;
    AllMergeOne(s, r);
  }

  lemma NestedReads(s: Store, r: Rank)
    requires IsNested(s) && Ranked(s, r)
    ensures "k" !in LiteralKeys(s, r, 5)
    ensures TopReads(Shallow(s, r, 0), map["k" := Leaf("text")]) && TopReads(Deep(s, r, 0), map["k" := Dict(ONE)])
  {
    hide EntryMap, DeepDict, ShallowDict, Items, OwnMap, Ranked, UnitedKeys, LiteralKeys, HasMerge, TopReads, Deep;
    DocumentReads(s, r, 1, 1, 5);
    LeafEntry(s, r, 3, "x", 4);
    MergingShape(s, r, 6, "k", 7, 8, 2, 3);
    SourceWins(s, r, 6, "k", 7, 8, 2, 3);
    OnlyShape(s, r, 5, 6, 6);
    OnlyReads(s, r, 5, 6, 6);
  }

  /** The scalar read through the mapping merged in place is lost although top reaches no literal mapping. */
  method LoseScalarOnTheWay(doc: YamlDocument)
    requires IsNested(doc.nodes) && doc.next == 9
    modifies doc
    ensures Ranked(old(doc.nodes), NestedRank())
            && TopReads(Shallow(old(doc.nodes), NestedRank(), 0), map["k" := Leaf("text")])
    ensures "k" !in LiteralKeys(old(doc.nodes), NestedRank(), 5)
    ensures Ranked(doc.nodes, doc.rank) && 0 in doc.nodes
            && TopReads(Shallow(doc.nodes, doc.rank, 0), map["k" := Dict(ONE)])
  {
    hide Deep, Shallow, Ranked, Wf, Reach, LiteralKeys;
    NestedRanked(doc.nodes);
    NestedWf(doc.nodes, NestedRank());
    NestedReads(doc.nodes, NestedRank());
    doc.FixDocument(0, NestedRank());
  }

  // ---------- A mapping merged in place ----------

  ghost function InlineRank(): Rank {
    map[0 := 6, 1 := 5, 2 := 4, 3 := 3, 4 := 2, 5 := 0, 6 := 1, 7 := 0]
  }

  /** top: {<<: {k: {x: one}}, k: {y: two}} */
  ghost predicate IsInline(s: Store) {
    && s.Keys == {0, 1, 2, 3, 4, 5, 6, 7}
    && s[0] == Document([1]) && s[1] == Mapping([Entry("top", 2)]) && s[2] == Mapping([Entry(MERGE, 3), Entry("k", 6)])
    && s[3] == Mapping([Entry("k", 4)]) && s[4] == Mapping([Entry("x", 5)]) && s[5] == Scalar("one")
    && s[6] == Mapping([Entry("y", 7)]) && s[7] == Scalar("two")
  }

  lemma InlineRanked(s: Store)
    requires IsInline(s)
    ensures Ranked(s, InlineRank())
  {
    assert Children(s[0]) == [1] && Children(s[1]) == [2] && Children(s[2]) == [3, 6] && Children(s[3]) == [4];
    assert Children(s[4]) == [5] && Children(s[5]) == [] && Children(s[6]) == [7] && Children(s[7]) == [];
    hide Children;
  }

  lemma InlineWf(s: Store, r: Rank)
    requires IsInline(s) && Ranked(s, r)
    ensures Wf(s, r)
  {
    hide EntryMap, DeepDict, ShallowDict, Items, OwnMap, Ranked, HasMerge, Deep, Shallow;
    assert MergesOne(s, r, 1) by { OneEntry(s, r, 1, "top", 2); }
    assert MergesOne(s, r, 3) by { OneEntry(s, r, 3, "k", 4); }
    assert MergesOne(s, r, 4) by { OneEntry(s, r, 4, "x", 5); }
    assert MergesOne(s, r, 6) by { OneEntry(s, r, 6, "y", 7); }
    assert MergesOne(s, r, 2) by { MergingShape(s, r, 2, "k", 3, 6, 3, 4); }
    hide MergesOne;
    AllMergeOne(s, r);
  }

  lemma InlineReads(s: Store, r: Rank)
    requires IsInline(s) && Ranked(s, r)
    ensures TopReads(Deep(s, r, 0), map["k" := Dict(TWO)]) && AllUnion(s, r, 2, "k") == BOTH
  {
    hide EntryMap, DeepDict, ShallowDict, Items, OwnMap, Ranked, UnitedKeys, HasMerge, TopReads, Deep, Shallow,
         AllUnion;
    DocumentReads(s, r, 1, 0, 2);
    LeafEntry(s, r, 4, "x", 5);
    LeafEntry(s, r, 6, "y", 7);
    OwnStays(s, r, 2, "k", 3, 6, 3, 4);
    AllUnionOfTwo(s, r, 2, "k", 3, 6, 3, 4, 6, 4);
  }

  /** The sub-key of the mapping merged in place is lost. */
  method LoseInline(doc: YamlDocument)
    requires IsInline(doc.nodes) && doc.next == 8
    modifies doc
    ensures Ranked(old(doc.nodes), InlineRank()) && AllUnion(old(doc.nodes), InlineRank(), 2, "k") == BOTH
    ensures Ranked(doc.nodes, doc.rank) && 0 in doc.nodes
            && TopReads(Shallow(doc.nodes, doc.rank, 0), map["k" := Dict(TWO)])
  {
    hide Deep, Shallow, Ranked, Wf, Reach, AllUnion;
    InlineRanked(doc.nodes);
    InlineWf(doc.nodes, InlineRank());
    InlineReads(doc.nodes, InlineRank());
    doc.FixDocument(0, InlineRank());
  }

  // ---------- A source whose value is an alias ----------

  ghost function AliasRank(): Rank {
    map[0 := 7, 1 := 6, 2 := 1, 3 := 0, 4 := 3, 5 := 2, 6 := 5, 7 := 4, 8 := 1, 9 := 0]
  }

  /** m: &m {x: one}
      base: &b {k: *m}
      top: {<<: *b, k: {y: two}} */
  ghost predicate IsAlias(s: Store) {
    && s.Keys == {0, 1, 2, 3, 4, 5, 6, 7, 8, 9}
    && s[0] == Document([1]) && s[1] == Mapping([Entry("m", 2), Entry("base", 4), Entry("top", 6)])
    && s[2] == Mapping([Entry("x", 3)]) && s[3] == Scalar("one") && s[4] == Mapping([Entry("k", 5)]) && s[5] == Alias(2)
    && s[6] == Mapping([Entry(MERGE, 7), Entry("k", 8)]) && s[7] == Alias(4)
    && s[8] == Mapping([Entry("y", 9)]) && s[9] == Scalar("two")
  }

  lemma AliasRanked(s: Store)
    requires IsAlias(s)
    ensures Ranked(s, AliasRank())
  {
    assert Children(s[0]) == [1] && Children(s[1]) == [2, 4, 6] && Children(s[2]) == [3] && Children(s[3]) == [];
    assert Children(s[4]) == [5] && Children(s[5]) == [2] && Children(s[6]) == [7, 8] && Children(s[7]) == [4];
    assert Children(s[8]) == [9] && Children(s[9]) == [];
    hide Children;
  }

  lemma AliasWf(s: Store, r: Rank)
    requires IsAlias(s) && Ranked(s, r)
    ensures Wf(s, r)
  {
    hide EntryMap, DeepDict, ShallowDict, Items, OwnMap, Ranked, HasMerge, Deep, Shallow;
    assert MergesOne(s, r, 1) by { PlainKey(s, r, 1, 0); }
    assert MergesOne(s, r, 2) by { OneEntry(s, r, 2, "x", 3); }
    assert MergesOne(s, r, 4) by { OneEntry(s, r, 4, "k", 5); }
    assert MergesOne(s, r, 8) by { OneEntry(s, r, 8, "y", 9); }
    assert MergesOne(s, r, 6) by { MergingShape(s, r, 6, "k", 7, 8, 4, 5); }
    hide MergesOne;
    AllMergeOne(s, r);
  }

  lemma AliasReads(s: Store, r: Rank)
    requires IsAlias(s) && Ranked(s, r)
    ensures TopReads(Deep(s, r, 0), map["k" := Dict(TWO)]) && AllUnion(s, r, 6, "k") == BOTH
  {
    hide EntryMap, DeepDict, ShallowDict, Items, OwnMap, Ranked, UnitedKeys, HasMerge, TopReads, Deep, Shallow,
         AllUnion;
    DocumentReads(s, r, 1, 2, 6);
    LeafEntry(s, r, 2, "x", 3);
    LeafEntry(s, r, 8, "y", 9);
    NoMerge(s[5]);
    OwnStays(s, r, 6, "k", 7, 8, 4, 5);
    AllUnionOfTwo(s, r, 6, "k", 7, 8, 4, 5, 8, 2);
  }

  /** The sub-key that the source has through an alias is lost. */
  method LoseAliasValue(doc: YamlDocument)
    requires IsAlias(doc.nodes) && doc.next == 10
    modifies doc
    ensures Ranked(old(doc.nodes), AliasRank()) && AllUnion(old(doc.nodes), AliasRank(), 6, "k") == BOTH
    ensures Ranked(doc.nodes, doc.rank) && 0 in doc.nodes
            && TopReads(Shallow(doc.nodes, doc.rank, 0), map["k" := Dict(TWO)])
  {
    hide Deep, Shallow, Ranked, Wf, Reach, AllUnion;
    AliasRanked(doc.nodes);
    AliasWf(doc.nodes, AliasRank());
    AliasReads(doc.nodes, AliasRank());
    doc.FixDocument(0, AliasRank());
  }

  // ---------- An own value that is an alias ----------

  ghost function OwnRank(): Rank {
    map[0 := 6, 1 := 5, 2 := 2, 3 := 1, 4 := 0, 5 := 1, 6 := 0, 7 := 4, 8 := 3, 9 := 2]
  }

  /** base: &b {k: {x: one}}
      m: &m {y: two}
      top: {<<: *b, k: *m} */
  ghost predicate IsOwn(s: Store) {
    && s.Keys == {0, 1, 2, 3, 4, 5, 6, 7, 8, 9}
    && s[0] == Document([1]) && s[1] == Mapping([Entry("base", 2), Entry("m", 5), Entry("top", 7)])
    && s[2] == Mapping([Entry("k", 3)]) && s[3] == Mapping([Entry("x", 4)]) && s[4] == Scalar("one")
    && s[5] == Mapping([Entry("y", 6)]) && s[6] == Scalar("two")
    && s[7] == Mapping([Entry(MERGE, 8), Entry("k", 9)]) && s[8] == Alias(2) && s[9] == Alias(5)
  }

  lemma OwnRanked(s: Store)
    requires IsOwn(s)
    ensures Ranked(s, OwnRank())
  {
    assert Children(s[0]) == [1] && Children(s[1]) == [2, 5, 7] && Children(s[2]) == [3] && Children(s[3]) == [4];
    assert Children(s[4]) == [] && Children(s[5]) == [6] && Children(s[6]) == [] && Children(s[7]) == [8, 9];
    assert Children(s[8]) == [2] && Children(s[9]) == [5];
    hide Children;
  }

  lemma OwnWf(s: Store, r: Rank)
    requires IsOwn(s) && Ranked(s, r)
    ensures Wf(s, r)
  {
    hide EntryMap, DeepDict, ShallowDict, Items, OwnMap, Ranked, HasMerge, Deep, Shallow;
    assert MergesOne(s, r, 1) by { PlainKey(s, r, 1, 0); }
    assert MergesOne(s, r, 2) by { OneEntry(s, r, 2, "k", 3); }
    assert MergesOne(s, r, 3) by { OneEntry(s, r, 3, "x", 4); }
    assert MergesOne(s, r, 5) by { OneEntry(s, r, 5, "y", 6); }
    assert MergesOne(s, r, 7) by { MergingShape(s, r, 7, "k", 8, 9, 2, 3); }
    hide MergesOne;
    AllMergeOne(s, r);
  }

  lemma OwnReads(s: Store, r: Rank)
    requires IsOwn(s) && Ranked(s, r)
    ensures TopReads(Deep(s, r, 0), map["k" := Dict(ONE)]) && AllUnion(s, r, 7, "k") == BOTH
  {
    hide EntryMap, DeepDict, ShallowDict, Items, OwnMap, Ranked, UnitedKeys, HasMerge, TopReads, Deep, Shallow,
         AllUnion;
    DocumentReads(s, r, 1, 2, 7);
    LeafEntry(s, r, 3, "x", 4);
    LeafEntry(s, r, 5, "y", 6);
    SourceWins(s, r, 7, "k", 8, 9, 2, 3);
    AllUnionOfTwo(s, r, 7, "k", 8, 9, 2, 3, 5, 3);
  }

  /** The mapping that top itself has through an alias is lost to that of its source. */
  method LoseOwnAlias(doc: YamlDocument)
    requires IsOwn(doc.nodes) && doc.next == 10
    modifies doc
    ensures Ranked(old(doc.nodes), OwnRank()) && AllUnion(old(doc.nodes), OwnRank(), 7, "k") == BOTH
    ensures Ranked(doc.nodes, doc.rank) && 0 in doc.nodes
            && TopReads(Shallow(doc.nodes, doc.rank, 0), map["k" := Dict(ONE)])
  {
    hide Deep, Shallow, Ranked, Wf, Reach, AllUnion;
    OwnRanked(doc.nodes);
    OwnWf(doc.nodes, OwnRank());
    OwnReads(doc.nodes, OwnRank());
    doc.FixDocument(0, OwnRank());
  }

  // ---------- Values that merge themselves ----------

  ghost function CarryRank(): Rank {
    map[0 := 7, 1 := 6, 2 := 3, 3 := 2, 4 := 1, 5 := 0, 6 := 5, 7 := 4, 8 := 2, 9 := 1, 10 := 0]
  }

  /** base: &b {k: {<<: {x: one}}}
      top: {<<: *b, k: {<<: {y: two}}} */
  ghost predicate IsCarry(s: Store) {
    && s.Keys == {0, 1, 2, 3, 4, 5, 6, 7, 8, 9, 10}
    && s[0] == Document([1]) && s[1] == Mapping([Entry("base", 2), Entry("top", 6)])
    && s[2] == Mapping([Entry("k", 3)]) && s[3] == Mapping([Entry(MERGE, 4)])
    && s[4] == Mapping([Entry("x", 5)]) && s[5] == Scalar("one")
    && s[6] == Mapping([Entry(MERGE, 7), Entry("k", 8)]) && s[7] == Alias(2)
    && s[8] == Mapping([Entry(MERGE, 9)]) && s[9] == Mapping([Entry("y", 10)]) && s[10] == Scalar("two")
  }

  lemma CarryRanked(s: Store)
    requires IsCarry(s)
    ensures Ranked(s, CarryRank())
  {
    assert Children(s[0]) == [1] && Children(s[1]) == [2, 6] && Children(s[2]) == [3] && Children(s[3]) == [4];
    assert Children(s[4]) == [5] && Children(s[5]) == [] && Children(s[6]) == [7, 8] && Children(s[7]) == [2];
    assert Children(s[8]) == [9] && Children(s[9]) == [10] && Children(s[10]) == [];
    hide Children;
  }

  lemma CarryWf(s: Store, r: Rank)
    requires IsCarry(s) && Ranked(s, r)
    ensures Wf(s, r)
  {
    hide EntryMap, DeepDict, ShallowDict, Items, OwnMap, Ranked, HasMerge, Deep, Shallow, LiteralKeys;
    assert MergesOne(s, r, 1) by { PlainKey(s, r, 1, 0); }
    assert MergesOne(s, r, 2) by { OneEntry(s, r, 2, "k", 3); }
    assert MergesOne(s, r, 4) by { OneEntry(s, r, 4, "x", 5); }
    assert MergesOne(s, r, 9) by { OneEntry(s, r, 9, "y", 10); }
    assert MergesOne(s, r, 3) by { OnlyShape(s, r, 3, 4, 4); }
    assert MergesOne(s, r, 8) by { OnlyShape(s, r, 8, 9, 9); }
    assert MergesOne(s, r, 6) by { MergingShape(s, r, 6, "k", 7, 8, 2, 3); }
    hide MergesOne;
    AllMergeOne(s, r);
  }

  /** Of two values without explicit keys only the first one's merge key is carried. */
  lemma FirstCarries(s: Store, r: Rank, n: Id, k: string, i: Id, v: Id, t: Id, m: Id)
    requires Merging(s, r, n, k, i, v, t, m) && v in s && HasMerge(s[v]) && s[m].Mapping?
    requires Explicit(s, r, v) == map[] && Explicit(s, r, m) == map[]
    ensures DeepDict(s, r, n) == map[k := Dict(DeepFrom(s, r, v, 0))]
  {
    hide EntryMap, Ranked, DeepDict, ShallowDict, OwnMap, Items, Deep, Shallow, DeepFrom, UnionFrom, UnitedKeys,
         Explicit, SubKeys, LiteralKeysFrom;
    MergingShape(s, r, n, k, i, v, t, m);
    assert UnionFrom(s, r, n, 0, k) == map[] by { NothingFromSource(s, r, n, k, i, v, t, m); }
    NotEmpty(s[v]);
    assert k in OwnLiteralKeys(s, n);
    UnitedIff(s, r, n, k);
    assert Union(s, r, n, k) == map[] && CarrierOf(s, r, n, k) == By(v);
    assert UnitedDict(s, r, n, k) == DeepFrom(s, r, v, 0);
    DeepNext(s, r, n, k);
  }

  lemma NotEmpty(nd: Node)
    requires HasMerge(nd)
    ensures nd.entries != []
  {}

  lemma NothingFromSource(s: Store, r: Rank, n: Id, k: string, i: Id, v: Id, t: Id, m: Id)
    requires Merging(s, r, n, k, i, v, t, m) && s[m].Mapping? && Explicit(s, r, m) == map[]
    ensures UnionFrom(s, r, n, 0, k) == map[]
  {
    hide EntryMap, Ranked, DeepDict, ShallowDict, OwnMap, Items, Deep, Shallow, Explicit;
    MergingShape(s, r, n, k, i, v, t, m);
    NoSources(s, r, t, k);
    assert UnionFrom(s, r, n, 1, k) == map[];
    assert Union(s, r, t, k) == OwnLiteral(s, r, t, k);
  }

  lemma CarryReads(s: Store, r: Rank)
    requires IsCarry(s) && Ranked(s, r)
    ensures TopReads(Deep(s, r, 0), map["k" := Dict(TWO)]) && AllUnion(s, r, 6, "k") == BOTH
  {
    hide EntryMap, DeepDict, ShallowDict, Items, OwnMap, Ranked, UnitedKeys, HasMerge, TopReads, Deep, Shallow,
         AllUnion;
    hide LiteralKeys, Explicit, DeepFrom;
    DocumentReads(s, r, 1, 1, 6);
    LeafEntry(s, r, 4, "x", 5);
    LeafEntry(s, r, 9, "y", 10);
    OnlyShape(s, r, 3, 4, 4);
    OnlyReads(s, r, 3, 4, 4);
    OnlyShape(s, r, 8, 9, 9);
    OnlyReads(s, r, 8, 9, 9);
    FirstCarries(s, r, 6, "k", 7, 8, 2, 3);
    AllUnionOfTwo(s, r, 6, "k", 7, 8, 2, 3, 8, 3);
  }

  /** The sub-key that the value of the source reads through its merge key is lost. */
  method LoseInherited(doc: YamlDocument)
    requires IsCarry(doc.nodes) && doc.next == 11
    modifies doc
    ensures Ranked(old(doc.nodes), CarryRank()) && AllUnion(old(doc.nodes), CarryRank(), 6, "k") == BOTH
    ensures Ranked(doc.nodes, doc.rank) && 0 in doc.nodes
            && TopReads(Shallow(doc.nodes, doc.rank, 0), map["k" := Dict(TWO)])
  {
    hide Deep, Shallow, Ranked, Wf, Reach, AllUnion;
    CarryRanked(doc.nodes);
    CarryWf(doc.nodes, CarryRank());
    CarryReads(doc.nodes, CarryRank());
    doc.FixDocument(0, CarryRank());
  }
}
