/** What the comments of the rewriting promise for a key, and exactly when the fixed document reads it:
    scalars and sequences are read as from the original document, and mappings are united over the
    mapping and everything it merges. */
module DeepMergeReading {
  import opened YamlNodes
  import opened DeepMergeMeaning

  /** A finished mapping reads its deep meaning. */
  lemma FixedReads(f: Run, n: Id)
    requires Fixed(f) && n in f.done && n in f.s0 && f.s0[n].Mapping?
    ensures n in f.s && f.s[n].Mapping? && ShallowDict(f.s, f.r, n) == DeepDict(f.s0, f.r0, n)
  {
    hide ShallowDict, DeepDict;
    KindKept(f, n);
    assert Shallow(f.s, f.r, n) == Deep(f.s0, f.r0, n);
  }

  // ---------- The value of a key that the decoder reads from the original document ----------

  /** The first merge source, from the j-th on, that has a key. */
  ghost function FirstSource(s: Store, r: Rank, n: Id, j: nat, k: string): (m: nat)
    requires Ranked(s, r) && n in s && s[n].Mapping? && j <= |Items(s, r, n)| && k in ShallowFrom(s, r, n, j)
    ensures j <= m < |Items(s, r, n)| && s[Source(s, r, n, m)].Mapping? && k in ShallowDict(s, r, Source(s, r, n, m))
    ensures ShallowFrom(s, r, n, j)[k] == ShallowDict(s, r, Source(s, r, n, m))[k]
    decreases |Items(s, r, n)| - j
  {
    var t := Source(s, r, n, j);
    if s[t].Mapping? && k in ShallowDict(s, r, t) then j else FirstSource(s, r, n, j + 1, k)
  }

  /** The source a mapping reads a key from that it does not have itself. */
  ghost function NextIndex(s: Store, r: Rank, n: Id, k: string): (m: nat)
    requires Ranked(s, r) && n in s && s[n].Mapping? && k in ShallowDict(s, r, n) && k !in OwnMap(s[n])
    ensures k in ShallowFrom(s, r, n, 0) && m == FirstSource(s, r, n, 0, k) && m < |Items(s, r, n)|
  {
    FirstSource(s, r, n, 0, k)
  }

  ghost function Next(s: Store, r: Rank, n: Id, k: string): (t: Id)
    requires Ranked(s, r) && n in s && s[n].Mapping? && k in ShallowDict(s, r, n) && k !in OwnMap(s[n])
    ensures t in s && s[t].Mapping? && r[t] < r[n] && k in ShallowDict(s, r, t)
    ensures ShallowDict(s, r, n)[k] == ShallowDict(s, r, t)[k]
  {
    Source(s, r, n, NextIndex(s, r, n, k))
  }

  /** The node that is read for a key: the mapping's own value, or that of the first source. */
  ghost function ValueOf(s: Store, r: Rank, n: Id, k: string): (x: Id)
    requires Ranked(s, r) && n in s && s[n].Mapping? && k in ShallowDict(s, r, n)
    ensures x in s && r[x] < r[n] && ShallowDict(s, r, n)[k] == Shallow(s, r, x)
    decreases r[n]
  {
    if k in OwnMap(s[n]) then ChildOf(s, r, n, k); OwnMap(s[n])[k] else ValueOf(s, r, Next(s, r, n, k), k)
  }

  /** No mapping on the way to that node unites the key. */
  ghost predicate Untouched(s: Store, r: Rank, n: Id, k: string)
    requires Ranked(s, r) && n in s && s[n].Mapping? && k in ShallowDict(s, r, n)
    decreases r[n]
  {
    k !in UnitedKeys(s, r, n) && (k in OwnMap(s[n]) || Untouched(s, r, Next(s, r, n, k), k))
  }

  /** The deep meaning of the same source. */
  lemma {:induction false} DeepFromFirst(s: Store, r: Rank, n: Id, j: nat, k: string)
    requires Ranked(s, r) && n in s && s[n].Mapping? && j <= |Items(s, r, n)| && k in ShallowFrom(s, r, n, j)
    ensures var t := Source(s, r, n, FirstSource(s, r, n, j, k));
            && k in DeepFrom(s, r, n, j) && k in DeepDict(s, r, t) && DeepFrom(s, r, n, j)[k] == DeepDict(s, r, t)[k]
    decreases |Items(s, r, n)| - j
  {
    hide ShallowDict, DeepDict, Items, Ranked;
    var t := Source(s, r, n, j);
    if s[t].Mapping? { DeepKeys(s, r, t); }
    if !(s[t].Mapping? && k in ShallowDict(s, r, t)) { DeepFromFirst(s, r, n, j + 1, k); }
  }

  /** A key that is not united is read where the decoder reads it. */
  lemma DeepNext(s: Store, r: Rank, n: Id, k: string)
    requires Ranked(s, r) && n in s && s[n].Mapping? && k in ShallowDict(s, r, n)
    ensures k in DeepDict(s, r, n)
    ensures k in UnitedKeys(s, r, n) ==> DeepDict(s, r, n)[k] == Dict(UnitedDict(s, r, n, k))
    ensures k !in UnitedKeys(s, r, n) && k in OwnMap(s[n]) ==>
              OwnMap(s[n])[k] in s && DeepDict(s, r, n)[k] == Deep(s, r, OwnMap(s[n])[k])
    ensures k !in UnitedKeys(s, r, n) && k !in OwnMap(s[n]) ==>
              k in DeepDict(s, r, Next(s, r, n, k)) && DeepDict(s, r, n)[k] == DeepDict(s, r, Next(s, r, n, k))[k]
  {
    hide UnitedKeys, UnitedDict, Deep, Items, Ranked, EntryMap, Explicit, DeepFrom;
    DeepKeys(s, r, n);
    ExplicitByKey(s, r, n);
    if k !in UnitedKeys(s, r, n) && k !in OwnMap(s[n]) { DeepFromFirst(s, r, n, 0, k); }
    if k in OwnMap(s[n]) { ChildOf(s, r, n, k); }
  }

  /** The decoder and the deep meaning agree on what is a mapping, and on scalars. */
  lemma {:induction false} SameKinds(s: Store, r: Rank, x: Id)
    requires Ranked(s, r) && x in s
    ensures Shallow(s, r, x).Dict? <==> Deep(s, r, x).Dict?
    ensures Shallow(s, r, x).Leaf? ==> Deep(s, r, x) == Shallow(s, r, x)
    decreases r[x]
  {
    hide ShallowDict, DeepDict, ShallowList, DeepList;
    if s[x].Alias? {
      assert Below(s, r, x, s[x]) && Children(s[x])[0] == s[x].target;
      SameKinds(s, r, s[x].target);
    }
  }

  /** What the deep meaning has for a key: that of the node read, or else a mapping. */
  lemma {:induction false} UntouchedReads(s: Store, r: Rank, n: Id, k: string)
    requires Ranked(s, r) && n in s && s[n].Mapping? && k in ShallowDict(s, r, n)
    ensures k in DeepDict(s, r, n)
    ensures if Untouched(s, r, n, k) then DeepDict(s, r, n)[k] == Deep(s, r, ValueOf(s, r, n, k))
            else DeepDict(s, r, n)[k].Dict?
    decreases r[n]
  {
    hide DeepDict, ShallowDict, UnitedKeys, Deep, EntryMap;
    DeepNext(s, r, n, k);
    if k !in OwnMap(s[n]) { UntouchedReads(s, r, Next(s, r, n, k), k); }
  }

  /** A scalar or a sequence that the decoder reads from the original document is read from the fixed one
      exactly when no mapping on the way to it unites the key; a scalar is then read unchanged. */
  lemma NativeKeptIff(f: Run, n: Id, k: string)
    requires Fixed(f) && n in f.done && n in f.s0 && f.s0[n].Mapping?
    requires k in ShallowDict(f.s0, f.r0, n) && !ShallowDict(f.s0, f.r0, n)[k].Dict?
    ensures n in f.s && f.s[n].Mapping? && k in ShallowDict(f.s, f.r, n)
    ensures ShallowDict(f.s, f.r, n)[k] == Deep(f.s0, f.r0, ValueOf(f.s0, f.r0, n, k)) <==> Untouched(f.s0, f.r0, n, k)
    ensures ShallowDict(f.s0, f.r0, n)[k].Leaf? ==>
              Deep(f.s0, f.r0, ValueOf(f.s0, f.r0, n, k)) == ShallowDict(f.s0, f.r0, n)[k]
  {
    hide ShallowDict, DeepDict, Deep, Shallow, Untouched;
    FixedReads(f, n);
    UntouchedReads(f.s0, f.r0, n, k);
    SameKinds(f.s0, f.r0, ValueOf(f.s0, f.r0, n, k));
  }

  // ---------- Keys with a literal mapping ----------

  /** A key with a literal mapping somewhere has at least one sub-key collected. */
  lemma {:induction false} LiteralKeysCount(s: Store, r: Rank, n: Id, k: string)
    requires Ranked(s, r) && n in s && s[n].Mapping? && k in LiteralKeys(s, r, n)
    ensures SubKeys(s, r, n, k) > 0
    decreases r[n], 1
  {
    hide EntryMap, Items, LiteralKeysFrom, CarrierFrom, UnionFrom, Explicit;
    if k in OwnLiteralKeys(s, n) {
      ChildOf(s, r, n, k);
      NonEmptyReads(s, r, OwnMap(s[n])[k]);
    } else {
      LiteralKeysFromCount(s, r, n, 0, k);
    }
    if Union(s, r, n, k) == map[] {
      assert forall j :: j !in UnionFrom(s, r, n, 0, k) + OwnLiteral(s, r, n, k);
      assert UnionFrom(s, r, n, 0, k) == map[] && OwnLiteral(s, r, n, k) == map[];
    }
  }

  lemma {:induction false} LiteralKeysFromCount(s: Store, r: Rank, n: Id, j: nat, k: string)
    requires Ranked(s, r) && n in s && s[n].Mapping? && j <= |Items(s, r, n)| && k in LiteralKeysFrom(s, r, n, j)
    ensures UnionFrom(s, r, n, j, k) != map[] || CarrierFrom(s, r, n, j, k).By?
    decreases r[n], 0, |Items(s, r, n)| - j
  {
    hide EntryMap, Items, LiteralKeys, Union, CarrierOf;
    var i := Items(s, r, n)[j];
    var rest := UnionFrom(s, r, n, j + 1, k);
    if k in LiteralKeysFrom(s, r, n, j + 1) {
      LiteralKeysFromCount(s, r, n, j + 1, k);
      if rest != map[] {
        var x :| x in rest;
        assert x in UnionFrom(s, r, n, j, k);
      }
    } else {
      assert Source(s, r, n, j) == s[i].target;
      LiteralKeysCount(s, r, s[i].target, k);
      if Union(s, r, s[i].target, k) != map[] {
        var x :| x in Union(s, r, s[i].target, k);
        assert x in UnionFrom(s, r, n, j, k);
      }
    }
  }

  lemma NonEmptyReads(s: Store, r: Rank, v: Id)
    requires Ranked(s, r) && v in s && s[v].Mapping? && s[v].entries != []
    ensures HasMerge(s[v]) || Explicit(s, r, v) != map[]
  {
    hide EntryMap, UnitedKeys, UnitedDict;
    var k := s[v].entries[0].key;
    EntryKey(s[v].entries, 0);
    if k != MERGE { assert k in OwnDeep(s, r, v) && k in Explicit(s, r, v); }
  }

  lemma UnitedIff(s: Store, r: Rank, n: Id, k: string)
    requires Ranked(s, r) && n in s && s[n].Mapping?
    ensures k in UnitedKeys(s, r, n) <==> k in LiteralKeys(s, r, n) && !Withstands(s, r, n, k)
  {
    hide LiteralKeys, Withstands;
  }

  /** A scalar of the mapping itself is kept exactly when no mapping reached through aliases has a literal
      mapping for its key. */
  lemma ScalarKeptIff(f: Run, n: Id, k: string, text: string)
    requires Fixed(f) && n in f.done && n in f.s0 && f.s0[n].Mapping?
    requires k in OwnMap(f.s0[n]) && OwnMap(f.s0[n])[k] in f.s0 && f.s0[OwnMap(f.s0[n])[k]] == Scalar(text)
    ensures n in f.s && f.s[n].Mapping? && k in ShallowDict(f.s, f.r, n)
    ensures ShallowDict(f.s, f.r, n)[k] == Leaf(text) <==> k !in LiteralKeys(f.s0, f.r0, n)
  {
    hide EntryMap, LiteralKeys, UnitedKeys, UnitedDict, ShallowFrom, Deep, DeepDict, SubKeys;
    FixedReads(f, n);
    DeepNext(f.s0, f.r0, n, k);
    UnitedIff(f.s0, f.r0, n, k);
    ReadsALeaf(f.s0, f.r0, OwnMap(f.s0[n])[k]);
    if k in LiteralKeys(f.s0, f.r0, n) { LiteralKeysCount(f.s0, f.r0, n, k); }
  }

  lemma ReadsALeaf(s: Store, r: Rank, x: Id)
    requires Ranked(s, r) && x in s && s[x].Scalar?
    ensures Deep(s, r, x) == Leaf(s[x].text)
  {}

  /** A sequence of the mapping itself is kept exactly when there is no such literal mapping, or the
      sequence has at least two items for every sub-key collected. */
  lemma SequenceKeptIff(f: Run, n: Id, k: string, items: seq<Id>)
    requires Fixed(f) && n in f.done && n in f.s0 && f.s0[n].Mapping?
    requires k in OwnMap(f.s0[n]) && OwnMap(f.s0[n])[k] in f.s0 && f.s0[OwnMap(f.s0[n])[k]] == Sequence(items)
    ensures n in f.s && f.s[n].Mapping? && k in ShallowDict(f.s, f.r, n)
    ensures ShallowDict(f.s, f.r, n)[k] == Deep(f.s0, f.r0, OwnMap(f.s0[n])[k]) <==>
            k !in LiteralKeys(f.s0, f.r0, n) || 2 * SubKeys(f.s0, f.r0, n, k) <= |items|
  {
    hide EntryMap, LiteralKeys, UnitedKeys, UnitedDict, ShallowFrom, Deep, DeepDict, SubKeys;
    FixedReads(f, n);
    DeepNext(f.s0, f.r0, n, k);
    UnitedIff(f.s0, f.r0, n, k);
    ReadsAList(f.s0, f.r0, OwnMap(f.s0[n])[k]);
  }

  lemma ReadsAList(s: Store, r: Rank, x: Id)
    requires Ranked(s, r) && x in s && s[x].Sequence?
    ensures Deep(s, r, x).List?
  {}

  /** Every merge item is an alias. */
  ghost predicate AliasesOnly(s: Store, r: Rank)
    requires Ranked(s, r)
  {
    forall n, j | n in s && 0 <= j < |Items(s, r, n)| :: Aliased(s, Items(s, r, n)[j])
  }

  lemma {:induction false} NextLiterals(s: Store, r: Rank, n: Id, j: nat, m: nat)
    requires Ranked(s, r) && AliasesOnly(s, r) && n in s && s[n].Mapping? && j <= m < |Items(s, r, n)|
    ensures s[Source(s, r, n, m)].Mapping? && LiteralKeys(s, r, Source(s, r, n, m)) <= LiteralKeysFrom(s, r, n, j)
    decreases m - j
  {
    hide LiteralKeys, Items;
    assert Aliased(s, Items(s, r, n)[j]);
    if j < m { NextLiterals(s, r, n, j + 1, m); }
  }

  lemma {:induction false} UntouchedThroughAliases(s: Store, r: Rank, n: Id, k: string)
    requires Ranked(s, r) && AliasesOnly(s, r) && n in s && s[n].Mapping? && k in ShallowDict(s, r, n)
    ensures Untouched(s, r, n, k) <==> k !in LiteralKeys(s, r, n) || (k in OwnMap(s[n]) && Withstands(s, r, n, k))
    decreases r[n]
  {
    hide ShallowFrom, Shallow, EntryMap, LiteralKeysFrom, SubKeys, Items, AliasesOnly, UnitedKeys;
    UnitedIff(s, r, n, k);
    if k !in OwnMap(s[n]) {
      var t := Next(s, r, n, k);
      UntouchedThroughAliases(s, r, t, k);
      NextLiterals(s, r, n, 0, NextIndex(s, r, n, k));
    }
  }

  /** Where every merge item is an alias, a scalar that the decoder reads from the original document, from
      the mapping or through its sources, is kept exactly when no mapping reached has a literal mapping
      for the key; so is a sequence read through the sources. */
  lemma InheritedKeptIff(f: Run, n: Id, k: string)
    requires Fixed(f) && n in f.done && n in f.s0 && f.s0[n].Mapping? && AliasesOnly(f.s0, f.r0)
    requires k in ShallowDict(f.s0, f.r0, n) && !ShallowDict(f.s0, f.r0, n)[k].Dict?
    requires ShallowDict(f.s0, f.r0, n)[k].Leaf? || k !in OwnMap(f.s0[n])
    ensures n in f.s && f.s[n].Mapping? && k in ShallowDict(f.s, f.r, n)
    ensures ShallowDict(f.s, f.r, n)[k] == Deep(f.s0, f.r0, ValueOf(f.s0, f.r0, n, k)) <==>
              k !in LiteralKeys(f.s0, f.r0, n)
    ensures ShallowDict(f.s0, f.r0, n)[k].Leaf? ==>
              Deep(f.s0, f.r0, ValueOf(f.s0, f.r0, n, k)) == ShallowDict(f.s0, f.r0, n)[k]
  {
    hide ShallowDict, DeepDict, EntryMap, Untouched, LiteralKeys, SubKeys, AliasesOnly, Deep, ShallowList;
    NativeKeptIff(f, n, k);
    UntouchedThroughAliases(f.s0, f.r0, n, k);
    if k in LiteralKeys(f.s0, f.r0, n) { LiteralKeysCount(f.s0, f.r0, n, k); }
  }
}
