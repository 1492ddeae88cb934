/** What one application of the rewriting leaves to be rewritten by a second one. */
module DeepMergeStable {
  import opened YamlNodes
  import opened DeepMerge
  import opened DeepMergeMeaning
  import opened DeepMergeSteps
  import opened DeepMergeRewrite

  ghost predicate MergedThroughAlias(s: Store, r: Rank, t: Id)
    requires Ranked(s, r)
  {
    exists n, j | n in s && 0 <= j < |Items(s, r, n)| :: Aliased(s, Items(s, r, n)[j]) && Source(s, r, n, j) == t
  }

  /** A mapping that merges, or is merged through an alias. */
  ghost predicate Participant(s: Store, r: Rank, n: Id)
    requires Ranked(s, r)
  {
    n in s && s[n].Mapping? && (HasMerge(s[n]) || MergedThroughAlias(s, r, n))
  }

  /** No literal value that takes part in merging merges itself. */
  ghost predicate Flat(s: Store, r: Rank) {
    Wf(s, r) && forall n, k | Participant(s, r, n) && Literal(s, n, k) :: !HasMerge(s[OwnMap(s[n])[k]])
  }

  /** New nodes do not merge. */
  ghost predicate NewFlat(f: Run) {
    forall x | x in f.s && x !in f.s0 :: !HasMerge(f.s[x])
  }

  /** No mapping of the set would be rewritten: nothing merged is longer than what it has. */
  ghost predicate StableOn(s: Store, r: Rank, d: set<Id>)
    requires Ranked(s, r)
  {
    forall n, k | n in d && n in s && HasMerge(s[n]) :: 2 * |Merged(s, r, n, k)| <= OwnLength(s, n, k)
  }

  /** A participant's literal values stay free of merge keys. */
  lemma OwnFlat(f: Run, n: Id, k: string)
    requires Fixed(f) && Flat(f.s0, f.r0) && NewFlat(f) && Settled(f, n) && Participant(f.s0, f.r0, n)
             && Literal(f.s, n, k)
    ensures !HasMerge(f.s[OwnMap(f.s[n])[k]])
  {
    hide EntryMap, Shallow, Deep, ShallowDict, DeepDict, OwnTrees, Union, Below, Items;
    var v := OwnMap(f.s[n])[k];
    if v in f.s0 {
      KindKept(f, v);
      if f.s[n] == f.s0[n] {
        assert Literal(f.s0, n, k);
      } else {
        assert Rewritten(f, n) by { assert SameShape(f.s0[n], f.s[n]); }
        if k in UnitedKeys(f.s0, f.r0, n) { assert United(f, n, k); }
        assert Literal(f.s0, n, k);
      }
    }
  }

  lemma {:induction false} GatherFlat(f: Run, n: Id, k: string)
    requires Fixed(f) && Flat(f.s0, f.r0) && NewFlat(f) && Settled(f, n) && Participant(f.s0, f.r0, n)
    ensures f.s[n].Mapping? && MERGE !in EntryMap(Gather(f.s, f.r, n, k))
    ensures MERGE !in EntryMap(GatherFrom(f.s, f.r, n, 0, k))
    decreases f.r0[n], 1
  {
    hide EntryMap, Items, Rewritten, Shallow, Deep, GatherFrom, Flat;
    KindKept(f, n);
    ItemsKept(f, n);
    GatherFromFlat(f, n, 0, k);
    EmptyEntryMap();
    if Literal(f.s, n, k) { OwnFlat(f, n, k); }
    EntryMapConcat(OwnEntries(f.s, n, k), GatherFrom(f.s, f.r, n, 0, k));
  }

  lemma {:induction false} GatherFromFlat(f: Run, n: Id, j: nat, k: string)
    requires Fixed(f) && Flat(f.s0, f.r0) && NewFlat(f) && Settled(f, n) && Participant(f.s0, f.r0, n)
             && f.s[n].Mapping?
    requires j <= |Items(f.s0, f.r0, n)|
    ensures |Items(f.s, f.r, n)| == |Items(f.s0, f.r0, n)|
    ensures MERGE !in EntryMap(GatherFrom(f.s, f.r, n, j, k))
    decreases f.r0[n], 0, |Items(f.s0, f.r0, n)| - j
  {
    hide EntryMap, Gather, Items, Ranked, Flat, Fixed, Framed, NewFlat;
    Basics(f);
    ItemsKept(f, n);
    EmptyEntryMap();
    if j < |Items(f.s0, f.r0, n)| {
      GatherFromFlat(f, n, j + 1, k);
      if Aliased(f.s0, Items(f.s0, f.r0, n)[j]) {
        SourceSettled(f, n, j);
        assert MergedThroughAlias(f.s0, f.r0, Source(f.s0, f.r0, n, j));
        GatherFlat(f, Source(f.s0, f.r0, n, j), k);
      }
      EntryMapConcat(GatherItem(f.s, f.r, n, j, k), GatherFrom(f.s, f.r, n, j + 1, k));
    }
  }

  lemma NewFlatAfter(w: Rewrite)
    requires Valid(w) && Flat(w.f.s0, w.f.r0) && NewFlat(w.f)
    ensures w.n in w.f.r && w.f.r[w.n] > 0 && NewFlat(After(w))
  {
    hide EntryMap, Merged, Gather, Shallow, Deep, NewRank, Rewritten, Flat;
    NewIds(w);
    ReadyBasics(w.f, w.n, w.c);
    var g := After(w);
    forall x | x in g.s && x !in g.s0 ensures !HasMerge(g.s[x]) {
      if x in w.ids.Values {
        var k := NewKey(w, x);
        GatherFlat(w.f, w.n, k);
        MergedMap(w.f.s, w.f.r, w.n, k);
      }
    }
  }

  // ---------- Nothing is left to rewrite in the original mappings ----------

  lemma {:induction false} FinishedIsStable(f: Run, n: Id, k: string)
    requires Fixed(f) && n in f.done && n in f.s0 && HasMerge(f.s0[n])
    ensures f.s[n].Mapping? && 2 * |Merged(f.s, f.r, n, k)| <= OwnLength(f.s, n, k)
  {
    hide EntryMap, AppendNew, GatherFrom, GatherTreesFrom, UnionFrom, CarrierOf, Carried, Items, Shallow, Deep,
         ShallowDict, ShallowFrom, LiteralKeys;
    Basics(f);
    KindKept(f, n);
    GatherIsUnion(f, n, k);
    assert Rewritten(f, n);
    if k in UnitedKeys(f.s0, f.r0, n) {
      assert United(f, n, k);
      SourcesAddNothing(f, n, k);
      var own := f.s[OwnMap(f.s[n])[k]].entries;
      AppendNewFresh([], own);
      assert [] + own == own;
      AppendNewTwice([], own, GatherFrom(f.s, f.r, n, 0, k));
      AppendNewKnown(own, GatherFrom(f.s, f.r, n, 0, k));
    } else if k in LiteralKeys(f.s0, f.r0, n) {
      StillWithstands(f, n, k);
    } else {
      AppendNothing();
    }
  }

  /** An own value kept in the first application is kept in the next. */
  lemma StillWithstands(f: Run, n: Id, k: string)
    requires Fixed(f) && n in f.done && n in f.s0 && HasMerge(f.s0[n]) && Withstands(f.s0, f.r0, n, k)
    requires f.s[n].Mapping? && k in OwnMap(f.s[n]) && OwnMap(f.s[n])[k] == OwnMap(f.s0[n])[k]
    ensures 2 * |Merged(f.s, f.r, n, k)| <= OwnLength(f.s, n, k)
  {
    hide EntryMap, Merged, SubKeys, Shallow, Deep, Rewritten;
    MergedCount(f, n, k);
    KindKept(f, OwnMap(f.s0[n])[k]);
  }

  lemma SourcesAddNothing(f: Run, n: Id, k: string)
    requires Fixed(f) && n in f.done && n in f.s0 && HasMerge(f.s0[n]) && f.s[n].Mapping? && United(f, n, k)
    ensures EntryMap(GatherFrom(f.s, f.r, n, 0, k)).Keys <= EntryMap(f.s[OwnMap(f.s[n])[k]].entries).Keys
  {
    hide EntryMap, GatherFrom, Items, Shallow, Deep, ShallowDict, ShallowFrom, Carried, LiteralKeys, Rewritten,
         CarrierFrom;
    Basics(f);
    var v := OwnMap(f.s[n])[k];
    var rest := GatherFrom(f.s, f.r, n, 0, k);
    GatherFromMeaning(f.s, f.r, n, 0, k);
    GatherFromIsUnion(f, n, 0, k);
    MergeCarriedFrom(f, n, 0, k);
    forall j | j in EntryMap(rest) ensures j in EntryMap(f.s[v].entries) {
      if j != MERGE {
        assert j in TreesOf(f.s, f.r, EntryMap(rest));
        assert j in Union(f.s0, f.r0, n, k);
        assert j in OwnTrees(f.s, f.r, v);
      }
    }
  }

  lemma AllStable(f: Run)
    requires Fixed(f)
    ensures Ranked(f.s, f.r) && StableOn(f.s, f.r, f.done * f.s0.Keys)
  {
    hide EntryMap, Merged, OwnLength, Fixed, Ranked;
    Basics(f);
    forall n, k | n in f.done * f.s0.Keys && n in f.s && HasMerge(f.s[n])
      ensures 2 * |Merged(f.s, f.r, n, k)| <= OwnLength(f.s, n, k)
    {
      KindKept(f, n);
      FinishedIsStable(f, n, k);
    }
  }

  // ---------- Stability does not depend on the ranks ----------

  lemma {:induction false} GatherByStore(s: Store, r: Rank, r': Rank, n: Id, k: string)
    requires Ranked(s, r) && Ranked(s, r') && n in s && s[n].Mapping?
    ensures Gather(s, r, n, k) == Gather(s, r', n, k)
    decreases r[n], 1
  {
    hide EntryMap, Ranked;
    GatherFromByStore(s, r, r', n, 0, k);
  }

  lemma {:induction false} GatherFromByStore(s: Store, r: Rank, r': Rank, n: Id, j: nat, k: string)
    requires Ranked(s, r) && Ranked(s, r') && n in s && s[n].Mapping? && j <= |Items(s, r, n)|
    ensures Items(s, r, n) == Items(s, r', n) && GatherFrom(s, r, n, j, k) == GatherFrom(s, r', n, j, k)
    decreases r[n], 0, |Items(s, r, n)| - j
  {
    hide EntryMap, Gather, Below;
    if j < |Items(s, r, n)| {
      GatherFromByStore(s, r, r', n, j + 1, k);
      var i := Items(s, r, n)[j];
      if Aliased(s, i) {
        assert Source(s, r, n, j) == s[i].target && Source(s, r', n, j) == s[i].target;
        GatherByStore(s, r, r', s[i].target, k);
      }
    }
  }

  lemma StableByStore(s: Store, r: Rank, r': Rank, d: set<Id>)
    requires Ranked(s, r) && Ranked(s, r') && StableOn(s, r, d)
    ensures StableOn(s, r', d)
  {
    hide EntryMap, Gather, AppendNew, OwnLength, Ranked;
    forall n, k | n in d && n in s && HasMerge(s[n]) ensures 2 * |Merged(s, r', n, k)| <= OwnLength(s, n, k) {
      GatherByStore(s, r, r', n, k);
      assert 2 * |Merged(s, r, n, k)| <= OwnLength(s, n, k);
    }
  }
}
