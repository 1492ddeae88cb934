/** Rewriting a mapping that merges keeps the run fixed. */
module DeepMergeRewrite {
  import opened YamlNodes
  import opened DeepMerge
  import opened DeepMergeMeaning
  import opened DeepMergeSteps

  /** One rewriting: the run, the mapping, what was collected, the new store and the new nodes. */
  datatype Rewrite = Rewrite(f: Run, n: Id, c: Collected, s': Store, ids: map<string, Id>)

  ghost predicate Valid(w: Rewrite) {
    Ready(w.f, w.n, w.c) && RewriteOf(w.f.s, w.n, w.c, w.s', w.ids)
  }

  ghost function Rank'(w: Rewrite): Rank
    requires w.n in w.f.r && w.f.r[w.n] > 0
  {
    NewRank(w.f.r, w.n, w.ids)
  }

  lemma NewIds(w: Rewrite)
    requires Valid(w)
    ensures w.n in w.f.s && w.n in w.f.r && w.f.r[w.n] > 0 && w.f.s[w.n].Mapping?
    ensures forall x | x in w.ids.Values :: x !in w.f.s && x in w.s' && x in Rank'(w) && Rank'(w)[x] == w.f.r[w.n] - 1
    ensures forall x | x in w.f.s :: x in w.f.r && x in Rank'(w) && Rank'(w)[x] == w.f.r[x]
    ensures forall x | x in w.s' :: x in w.f.s || x in w.ids.Values
    ensures w.f.s.Keys <= w.s'.Keys
  {
    hide EntryMap, Ready, Below, UniqueKeys, NewRank;
    ReadyBasics(w.f, w.n, w.c);
    NewRankFacts(w.f.r, w.n, w.ids);
    forall x | x in w.ids.Values ensures x !in w.f.s && x in w.s' {
      var k := NewKey(w, x);
    }
  }

  lemma NewRankFacts(r: Rank, n: Id, ids: map<string, Id>)
    requires n in r && r[n] > 0
    ensures forall x | x in ids.Values :: x in NewRank(r, n, ids) && NewRank(r, n, ids)[x] == r[n] - 1
    ensures forall x | x in r && x !in ids.Values :: x in NewRank(r, n, ids) && NewRank(r, n, ids)[x] == r[x]
  {}

  lemma NewKey(w: Rewrite, x: Id) returns (k: string)
    requires Valid(w) && x in w.ids.Values
    ensures k in w.c && w.ids[k] == x && x !in w.f.s && x in w.s' && w.s'[x] == Mapping(w.c[k])
  {
    hide EntryMap, Ready;
    k :| k in w.ids && w.ids[k] == x;
  }

  /** The content of a new node: finished values, well below the mapping. */
  lemma NewContent(w: Rewrite, k: string)
    requires Valid(w) && k in w.c
    ensures w.n in w.f.r && UniqueKeys(w.c[k]) && WellBelow(w.f.s, w.f.r, w.n, w.c[k]) && AllIn(w.c[k], w.f.done)
  {
    hide EntryMap, Merged, Gather, Rewritten, Shallow, Deep, GatherTrees, TreesOf, RewriteOf;
    ReadyBasics(w.f, w.n, w.c);
    MergedMeaning(w.f.s, w.f.r, w.n, k);
    GatherDone(w.f, w.n, k);
    forall i | 0 <= i < |w.c[k]| ensures w.c[k][i].value in w.f.done {
      MergedFrom(w.f.s, w.f.r, w.n, k, w.c[k][i]);
    }
  }

  lemma MergedFrom(s: Store, r: Rank, n: Id, k: string, e: Entry)
    requires Ranked(s, r) && n in s && s[n].Mapping? && e in Merged(s, r, n, k)
    ensures e in Gather(s, r, n, k)
  {
    AppendNewFrom([], Gather(s, r, n, k), e);
  }

  /** The rewritten mapping's values: new nodes, or values it had. */
  lemma RewrittenValues(w: Rewrite, i: nat)
    requires Valid(w) && i < |w.s'[w.n].entries|
    ensures var v := w.s'[w.n].entries[i].value; v in w.ids.Values || v in Children(w.f.s[w.n])
  {
    hide Merged, Rewritten, Shallow, Deep;
    ReadyBasics(w.f, w.n, w.c);
    var es := w.s'[w.n].entries;
    EntryKey(es, i);
    var k := es[i].key;
    if k !in w.ids {
      ChildOf(w.f.s, w.f.r, w.n, k);
    }
  }

  lemma RankedNew(w: Rewrite, k: string)
    requires Valid(w) && k in w.c
    ensures w.n in w.f.r && w.f.r[w.n] > 0 && w.ids[k] in Rank'(w) && Below(w.s', Rank'(w), w.ids[k], Mapping(w.c[k]))
  {
    hide EntryMap, Merged, Ready, NewRank, Ranked;
    NewIds(w);
    NewContent(w, k);
    assert w.ids[k] in w.ids.Values;
    assert forall i | 0 <= i < |w.c[k]| :: Children(Mapping(w.c[k]))[i] == w.c[k][i].value;
  }

  lemma RankedMapping(w: Rewrite)
    requires Valid(w)
    ensures w.n in w.f.r && w.f.r[w.n] > 0 && w.n in Rank'(w) && Below(w.s', Rank'(w), w.n, w.s'[w.n])
  {
    hide EntryMap, Merged, Ready, NewRank, Ranked;
    NewIds(w);
    ReadyBasics(w.f, w.n, w.c);
    assert Below(w.f.s, w.f.r, w.n, w.f.s[w.n]) by { RankedAt(w.f.s, w.f.r, w.n); }
    var cs := Children(w.s'[w.n]);
    forall i | 0 <= i < |cs| ensures cs[i] in w.s' && cs[i] in Rank'(w) && Rank'(w)[cs[i]] < Rank'(w)[w.n] {
      RewrittenValues(w, i);
    }
  }

  lemma RankedAt(s: Store, r: Rank, x: Id)
    requires Ranked(s, r) && x in s
    ensures x in r && Below(s, r, x, s[x])
  {}

  lemma RankedAfter(w: Rewrite)
    requires Valid(w)
    ensures w.n in w.f.r && w.f.r[w.n] > 0 && Ranked(w.s', Rank'(w))
  {
    hide EntryMap, Merged, Ready, NewRank, Children;
    NewIds(w);
    ReadyBasics(w.f, w.n, w.c);
    var r' := Rank'(w);
    forall x | x in w.s' ensures x in r' && Below(w.s', r', x, w.s'[x]) {
      if x in w.ids.Values {
        var k := NewKey(w, x);
        RankedNew(w, k);
      } else if x == w.n {
        RankedMapping(w);
      } else {
        assert Below(w.f.s, w.f.r, x, w.f.s[x]);
      }
    }
  }

  ghost function After(w: Rewrite): Run
    requires w.n in w.f.r && w.f.r[w.n] > 0
  {
    Finish(w.f, w.n, w.s', w.ids)
  }

  /** Finished nodes decode as before. */
  lemma AgreesAfter(w: Rewrite)
    requires Valid(w)
    ensures w.n in w.f.r && w.f.r[w.n] > 0
    ensures Agree(w.f.s, w.f.r, w.s', Rank'(w), w.f.done)
  {
    hide EntryMap, Merged, Rewritten, Shallow, Deep, NewRank;
    NewIds(w);
    RankedAfter(w);
    ReadyBasics(w.f, w.n, w.c);
  }

  lemma ClosedNew(w: Rewrite, k: string)
    requires Valid(w) && k in w.c
    ensures Within(Mapping(w.c[k]), w.f.done)
  {
    hide EntryMap, Merged, Ready;
    NewContent(w, k);
    assert forall i | 0 <= i < |w.c[k]| :: Children(Mapping(w.c[k]))[i] == w.c[k][i].value;
  }

  lemma ClosedMapping(w: Rewrite)
    requires Valid(w)
    ensures Within(w.s'[w.n], w.f.done + w.ids.Values)
  {
    hide EntryMap, Merged, Fixed;
    assert Within(w.f.s[w.n], w.f.done);
    var cs := Children(w.s'[w.n]);
    forall i | 0 <= i < |cs| ensures cs[i] in w.f.done + w.ids.Values {
      RewrittenValues(w, i);
    }
  }

  lemma ClosedAfter(w: Rewrite)
    requires Valid(w)
    ensures w.n in w.f.r && w.f.r[w.n] > 0 && Closed(w.s', After(w).done)
  {
    hide EntryMap, Merged, Ready, NewRank, Children;
    NewIds(w);
    ReadyBasics(w.f, w.n, w.c);
    var d := After(w).done;
    forall x | x in d ensures x in w.s' && Within(w.s'[x], d) {
      if x in w.ids.Values {
        var k := NewKey(w, x);
        ClosedNew(w, k);
      } else if x == w.n {
        ClosedMapping(w);
      } else {
        assert Within(w.f.s[x], w.f.done);
      }
    }
  }

  /** The merge entry of a node of the original document is untouched. */
  lemma ShapeAfter(w: Rewrite, x: Id)
    requires Valid(w) && x in w.f.s0
    ensures x in w.s' && SameShape(w.f.s0[x], w.s'[x])
    ensures x != w.n ==> w.s'[x] == w.f.s[x]
  {
    hide EntryMap, Merged, Rewritten, Shallow, Deep;
    ReadyBasics(w.f, w.n, w.c);
    CollectedKeys(w.f, w.n, w.c);
    assert SameShape(w.f.s0[x], w.f.s[x]);
  }

  /** Merge items of a mapping whose merge entry is that of a mapping of the previous store. */
  lemma SameItems(w: Rewrite, x: Id, v: Id)
    requires Valid(w) && Ranked(w.f.s, w.f.r) && w.n in w.f.r && w.f.r[w.n] > 0 && Ranked(w.s', Rank'(w))
    requires x in w.s' && v in w.f.s && HasMerge(w.s'[x]) && HasMerge(w.f.s[v])
    requires EntryMap(w.s'[x].entries)[MERGE] == EntryMap(w.f.s[v].entries)[MERGE]
    ensures Items(w.s', Rank'(w), x) == Items(w.f.s, w.f.r, v)
    ensures forall j | 0 <= j < |Items(w.f.s, w.f.r, v)| ::
              Source(w.s', Rank'(w), x, j) == Source(w.f.s, w.f.r, v, j) && w.s'[Source(w.f.s, w.f.r, v, j)].Mapping?
  {
    hide EntryMap, Merged, Rewritten, Shallow, Deep, NewRank;
    NewIds(w);
    ChildOf(w.f.s, w.f.r, v, MERGE);
    assert MergesMappings(w.f.s, w.f.r);
    forall j | 0 <= j < |Items(w.f.s, w.f.r, v)|
      ensures w.s'[Source(w.f.s, w.f.r, v, j)].Mapping?
    {
      assert w.f.s[Source(w.f.s, w.f.r, v, j)].Mapping?;
    }
  }

  lemma WfAfter(w: Rewrite)
    requires Valid(w)
    ensures w.n in w.f.r && w.f.r[w.n] > 0 && Wf(w.s', Rank'(w))
  {
    hide EntryMap, Merged, Rewritten, Shallow, Deep, NewRank, Items;
    NewIds(w);
    RankedAfter(w);
    ReadyBasics(w.f, w.n, w.c);
    forall x | x in w.s' && w.s'[x].Mapping? ensures UniqueKeys(w.s'[x].entries) {
      if x in w.ids.Values {
        var k := NewKey(w, x);
        NewContent(w, k);
      }
    }
    forall x, j | x in w.s' && 0 <= j < |Items(w.s', Rank'(w), x)|
      ensures w.s'[Source(w.s', Rank'(w), x, j)].Mapping?
    {
      NoItems(w.s', Rank'(w), x);
      var v := MergeOwner(w, x);
      SameItems(w, x, v);
    }
  }

  lemma NoItems(s: Store, r: Rank, x: Id)
    requires Ranked(s, r) && x in s
    ensures !HasMerge(s[x]) ==> Items(s, r, x) == []
  {}

  /** Every merge entry of the new store was already in the previous one. */
  lemma MergeOwner(w: Rewrite, x: Id) returns (v: Id)
    requires Valid(w) && x in w.s' && HasMerge(w.s'[x])
    ensures v in w.f.s && HasMerge(w.f.s[v]) && EntryMap(w.f.s[v].entries)[MERGE] == EntryMap(w.s'[x].entries)[MERGE]
  {
    hide EntryMap, Merged, Rewritten, Shallow, Deep, NewRank, Gather, Ranked;
    NewIds(w);
    if x in w.ids.Values {
      var k := NewKey(w, x);
      NewCarries(w, k);
      v := CarrierOf(w.f.s0, w.f.r0, w.n, k).mapping;
      assert SameShape(w.f.s0[v], w.f.s[v]);
    } else {
      v := x;
      CollectedKeys(w.f, w.n, w.c);
    }
  }

  lemma NewCarries(w: Rewrite, k: string)
    requires Valid(w) && k in w.c
    ensures Ranked(w.f.s0, w.f.r0) && w.n in w.f.s0 && w.f.s0[w.n].Mapping? && Carries(w.f, EntryMap(w.c[k]), w.n, k)
  {
    hide EntryMap, Merged, Gather, Shallow, Deep, CarrierOf, RewriteOf, Carries;
    ReadyBasics(w.f, w.n, w.c);
    MergeCarried(w.f, w.n, k);
    MergedMap(w.f.s, w.f.r, w.n, k);
  }

  // ---------- The meaning of the new nodes ----------

  lemma TreesAgree(s: Store, r: Rank, s': Store, r': Rank, d: set<Id>, m: map<string, Id>)
    requires Agree(s, r, s', r', d) && forall k | k in m :: m[k] in d
    ensures InStore(s, m) && InStore(s', m) && TreesOf(s', r', m) == TreesOf(s, r, m)
  {
    forall k | k in m ensures Shallow(s', r', m[k]) == Shallow(s, r, m[k]) {
      ShallowAgrees(s, r, s', r', d, m[k]);
    }
  }

  /** A new node's explicit entries are the union of the key. */
  lemma NewOwnTrees(w: Rewrite, k: string)
    requires Valid(w) && k in w.c
    ensures w.n in w.f.r && w.f.r[w.n] > 0 && Ranked(w.f.s0, w.f.r0) && Ranked(w.s', Rank'(w))
    ensures w.ids[k] in w.s' && w.s'[w.ids[k]] == Mapping(w.c[k])
    ensures OwnTrees(w.s', Rank'(w), w.ids[k]) == Union(w.f.s0, w.f.r0, w.n, k)
  {
    hide EntryMap, Merged, Rewritten, Shallow, Deep, NewRank, Gather, GatherTrees, Union, TreesOf, OwnTrees, Ranked;
    NewIds(w);
    RankedAfter(w);
    ReadyBasics(w.f, w.n, w.c);
    AgreesAfter(w);
    NewContent(w, k);
    MergedMeaning(w.f.s, w.f.r, w.n, k);
    GatherIsUnion(w.f, w.n, k);
    forall j | j in EntryMap(w.c[k]) ensures EntryMap(w.c[k])[j] in w.f.done { var i := EntryIndex(w.c[k], j); }
    TreesAgree(w.f.s, w.f.r, w.s', Rank'(w), w.f.done, EntryMap(w.c[k]));
    OwnTreesAre(w.s', Rank'(w), w.ids[k]);
  }

  /** Through the merge key it carries, a new node reads what the mapping that brought it does. */
  lemma NewCarried(w: Rewrite, k: string)
    requires Valid(w) && k in w.c
    ensures w.n in w.f.r && w.f.r[w.n] > 0 && Ranked(w.s', Rank'(w)) && w.ids[k] in w.s' && w.s'[w.ids[k]].Mapping?
    ensures Ranked(w.f.s0, w.f.r0) && w.n in w.f.s0 && w.f.s0[w.n].Mapping?
    ensures ShallowFrom(w.s', Rank'(w), w.ids[k], 0) == Carried(w.f.s0, w.f.r0, w.n, k)
  {
    hide EntryMap, Merged, Rewritten, Shallow, Deep, NewRank, Gather, Items, Ranked, ShallowFrom, DeepFrom, CarrierOf;
    NewIds(w);
    RankedAfter(w);
    ReadyBasics(w.f, w.n, w.c);
    NewCarries(w, k);
    var m, r' := w.ids[k], Rank'(w);
    NoItems(w.s', r', m);
    if HasMerge(w.s'[m]) {
      AgreesAfter(w);
      NewContent(w, k);
      var i := EntryIndex(w.c[k], MERGE);
      ReadsThrough(w.f, w.s', r', m, CarrierOf(w.f.s0, w.f.r0, w.n, k).mapping, 0);
    } else {
      NothingMerged(w.s', r', m);
    }
  }

  lemma NothingMerged(s: Store, r: Rank, m: Id)
    requires Ranked(s, r) && m in s && s[m].Mapping? && Items(s, r, m) == []
    ensures ShallowFrom(s, r, m, 0) == map[]
  {}

  // ---------- The rewritten mapping ----------

  /** When the merged content is not longer than the own literal value, it is that value. */
  lemma NothingAdded(s: Store, r: Rank, n: Id, k: string)
    requires Wf(s, r) && n in s && s[n].Mapping? && Literal(s, n, k)
    requires 2 * |Merged(s, r, n, k)| <= OwnLength(s, n, k)
    ensures Merged(s, r, n, k) == s[OwnMap(s[n])[k]].entries
  {
    hide EntryMap, AppendNew;
    var own, rest := OwnEntries(s, n, k), GatherFrom(s, r, n, 0, k);
    AppendNewFresh([], own);
    assert [] + own == own;
    AppendNewTwice([], own, rest);
    AppendNewUnique(own, rest);
  }

  lemma UnitedNew(w: Rewrite, k: string)
    requires Valid(w) && k in w.c
    ensures w.n in w.f.r && w.f.r[w.n] > 0 && Ranked(w.f.s0, w.f.r0) && Ranked(w.s', Rank'(w)) && w.f.s0[w.n].Mapping?
    ensures United(After(w), w.n, k)
  {
    hide EntryMap, Merged, Rewritten, Shallow, Deep, NewRank, Union, Ranked, ShallowFrom, Carried, CarrierOf, OwnTrees,
         Ready, UnitedKeys;
    NewIds(w);
    ReadyBasics(w.f, w.n, w.c);
    KindKept(w.f, w.n);
    CollectedKeys(w.f, w.n, w.c);
    NewOwnTrees(w, k);
    NewCarried(w, k);
    NewCarries(w, k);
    assert OwnMap(w.s'[w.n])[k] == w.ids[k];
    assert w.c[k] != [] by { LongerThanNothing(w, k); }
  }

  lemma LongerThanNothing(w: Rewrite, k: string)
    requires Valid(w) && k in w.c
    ensures w.c[k] != []
  {
    hide EntryMap, Merged, Shallow, Deep, Union, UnitedKeys;
    ReadyBasics(w.f, w.n, w.c);
  }

  lemma UnitedOld(w: Rewrite, k: string)
    requires Valid(w) && k !in w.c && Ranked(w.f.s0, w.f.r0) && w.f.s0[w.n].Mapping?
             && k in UnitedKeys(w.f.s0, w.f.r0, w.n)
    ensures w.n in w.f.r && w.f.r[w.n] > 0 && Ranked(w.s', Rank'(w))
    ensures United(After(w), w.n, k)
  {
    hide EntryMap, Merged, Gather, GatherTrees, TreesOf, Rewritten, Shallow, Deep, NewRank, Union, Ranked, ShallowDict,
         ShallowFrom, Carried;
    hide CarrierOf, OwnTrees, UnitedKeys;
    NewIds(w);
    RankedAfter(w);
    ReadyBasics(w.f, w.n, w.c);
    var f := w.f;
    GatherIsUnion(f, w.n, k);
    MergedMeaning(f.s, f.r, w.n, k);
    CollectedKeys(f, w.n, w.c);
    var v := OwnMap(f.s[w.n])[k];
    KindKept(f, v);
    OldCarried(w, k);
    OwnTreesAre(f.s, f.r, v);
    OwnValueDone(f, w.n, k);
    AgreesAfter(w);
    ShallowDictAgrees(f.s, f.r, w.s', Rank'(w), f.done, v);
    assert OwnMap(w.s'[w.n])[k] == v;
  }

  /** A value that is left alone keeps its merge key, and reads the same through it. */
  lemma OldCarried(w: Rewrite, k: string)
    requires Valid(w) && k !in w.c && w.f.s[w.n].Mapping? && Literal(w.f.s, w.n, k)
    ensures w.n in w.f.r && w.f.r[w.n] > 0 && Ranked(w.s', Rank'(w)) && Ranked(w.f.s, w.f.r)
    ensures Ranked(w.f.s0, w.f.r0) && w.n in w.f.s0 && w.f.s0[w.n].Mapping?
    ensures var v := OwnMap(w.f.s[w.n])[k];
            && v in w.s' && w.s'[v] == w.f.s[v] && Merged(w.f.s, w.f.r, w.n, k) == w.f.s[v].entries
            && Carries(w.f, EntryMap(w.f.s[v].entries), w.n, k)
            && ShallowFrom(w.s', Rank'(w), v, 0) == Carried(w.f.s0, w.f.r0, w.n, k)
  {
    hide EntryMap, Merged, Gather, Rewritten, Shallow, Deep, NewRank, Ranked, ShallowFrom, DeepFrom, Items, CarrierOf;
    NewIds(w);
    RankedAfter(w);
    AgreesAfter(w);
    ReadyBasics(w.f, w.n, w.c);
    MergeCarried(w.f, w.n, k);
    MergedMap(w.f.s, w.f.r, w.n, k);
    NothingAdded(w.f.s, w.f.r, w.n, k);
    OwnValueDone(w.f, w.n, k);
    var v, r' := OwnMap(w.f.s[w.n])[k], Rank'(w);
    NoItems(w.s', r', v);
    if HasMerge(w.s'[v]) {
      ChildWithin(w.f.s, w.f.done, v, MERGE);
      ReadsThrough(w.f, w.s', r', v, CarrierOf(w.f.s0, w.f.r0, w.n, k).mapping, 0);
    } else {
      NothingMerged(w.s', r', v);
    }
  }

  lemma UntouchedKey(w: Rewrite, k: string)
    requires Valid(w) && Ranked(w.f.s0, w.f.r0) && w.f.s0[w.n].Mapping? && k !in UnitedKeys(w.f.s0, w.f.r0, w.n)
    ensures w.s'[w.n].Mapping? && (k in OwnMap(w.s'[w.n]) <==> k in OwnMap(w.f.s0[w.n]))
    ensures k in OwnMap(w.s'[w.n]) ==> OwnMap(w.s'[w.n])[k] == OwnMap(w.f.s0[w.n])[k]
  {
    hide EntryMap, Merged, Shallow, Deep, Ranked, UnitedKeys, Fixed;
    CollectedKeys(w.f, w.n, w.c);
  }

  lemma RewrittenAfter(w: Rewrite)
    requires Valid(w)
    ensures w.n in w.f.r && w.f.r[w.n] > 0 && Ranked(w.f.s0, w.f.r0) && Ranked(w.s', Rank'(w))
    ensures w.n in w.s' && w.n in w.f.s0 && w.f.s0[w.n].Mapping? && w.s'[w.n].Mapping? && Rewritten(After(w), w.n)
  {
    hide EntryMap, OwnMap, NewRank, Ranked, UnitedKeys, United, Ready, RewriteOf;
    AfterBasics(w);
    forall k | k in UnitedKeys(w.f.s0, w.f.r0, w.n) ensures United(After(w), w.n, k) {
      if k in w.c { UnitedNew(w, k); } else { UnitedOld(w, k); }
    }
    forall k | k !in UnitedKeys(w.f.s0, w.f.r0, w.n)
      ensures k in OwnMap(w.s'[w.n]) <==> k in OwnMap(w.f.s0[w.n])
      ensures k in OwnMap(w.s'[w.n]) ==> OwnMap(w.s'[w.n])[k] == OwnMap(w.f.s0[w.n])[k]
    {
      UntouchedKey(w, k);
    }
  }

  lemma AfterBasics(w: Rewrite)
    requires Valid(w)
    ensures w.n in w.f.r && w.f.r[w.n] > 0 && Ranked(w.f.s0, w.f.r0) && Ranked(w.s', Rank'(w))
    ensures w.n in w.s' && w.n in w.f.s0 && w.f.s0[w.n].Mapping? && w.s'[w.n].Mapping?
  {
    hide EntryMap, Merged, NewRank, Ranked, Fixed;
    NewIds(w);
    RankedAfter(w);
    ReadyBasics(w.f, w.n, w.c);
  }

  lemma SourcesMeaning(w: Rewrite)
    requires Valid(w) && Ranked(w.f.s0, w.f.r0) && w.f.s0[w.n].Mapping?
    ensures w.n in w.f.r && w.f.r[w.n] > 0 && Ranked(w.s', Rank'(w)) && w.n in w.s' && w.s'[w.n].Mapping?
    ensures ShallowFrom(w.s', Rank'(w), w.n, 0) == DeepFrom(w.f.s0, w.f.r0, w.n, 0)
  {
    hide EntryMap, Merged, Shallow, Deep, NewRank, Items, ShallowFrom, DeepFrom, Rewritten;
    AfterBasics(w);
    AgreesAfter(w);
    ReadyBasics(w.f, w.n, w.c);
    CollectedKeys(w.f, w.n, w.c);
    ChildOf(w.f.s0, w.f.r0, w.n, MERGE);
    ReadsThrough(w.f, w.s', Rank'(w), w.n, w.n, 0);
  }

  /** The own entries: united keys, and the others as they were. */
  lemma OwnMeaningAfter(w: Rewrite)
    requires Valid(w) && Ranked(w.f.s0, w.f.r0) && w.f.s0[w.n].Mapping?
    ensures w.n in w.f.r && w.f.r[w.n] > 0 && Ranked(w.s', Rank'(w)) && w.n in w.s' && w.s'[w.n].Mapping?
    ensures OwnTrees(w.s', Rank'(w), w.n) == Explicit(w.f.s0, w.f.r0, w.n)
  {
    hide EntryMap, Shallow, Deep, NewRank, Ranked, Explicit, ExplicitAt, UnitedKeys, Rewritten, OwnTrees, Ready,
         RewriteOf;
    RewrittenAfter(w);
    forall k
      ensures k in OwnMap(w.s'[w.n]) <==> k in OwnMap(w.f.s0[w.n]) || k in UnitedKeys(w.f.s0, w.f.r0, w.n)
      ensures k in OwnMap(w.s'[w.n]) ==> OwnTrees(w.s', Rank'(w), w.n)[k] == ExplicitAt(w.f.s0, w.f.r0, w.n, k)
    {
      OwnKeyMeaning(w, k);
    }
    ExplicitByKey(w.f.s0, w.f.r0, w.n);
  }

  lemma OwnKeyMeaning(w: Rewrite, k: string)
    requires Valid(w) && Ranked(w.f.s0, w.f.r0) && w.f.s0[w.n].Mapping?
    requires w.n in w.f.r && w.f.r[w.n] > 0 && Ranked(w.s', Rank'(w)) && w.n in w.s' && w.s'[w.n].Mapping?
    requires Rewritten(After(w), w.n)
    ensures k in OwnMap(w.s'[w.n]) <==> k in OwnMap(w.f.s0[w.n]) || k in UnitedKeys(w.f.s0, w.f.r0, w.n)
    ensures k in OwnMap(w.s'[w.n]) ==> OwnTrees(w.s', Rank'(w), w.n)[k] == ExplicitAt(w.f.s0, w.f.r0, w.n, k)
  {
    hide EntryMap, Shallow, Deep, NewRank, Ranked, Union, Carried, CarrierOf, UnitedKeys, Items, Ready, RewriteOf;
    AfterBasics(w);
    if k in UnitedKeys(w.f.s0, w.f.r0, w.n) {
      assert United(After(w), w.n, k);
    } else if k in OwnMap(w.s'[w.n]) {
      OwnPlain(w, k);
    }
  }

  lemma OwnPlain(w: Rewrite, k: string)
    requires Valid(w) && Ranked(w.f.s0, w.f.r0) && w.f.s0[w.n].Mapping? && k !in UnitedKeys(w.f.s0, w.f.r0, w.n)
    requires w.s'[w.n].Mapping? && k in OwnMap(w.s'[w.n])
    ensures w.n in w.f.r && w.f.r[w.n] > 0 && Ranked(w.s', Rank'(w)) && k in OwnMap(w.f.s0[w.n])
    ensures OwnTrees(w.s', Rank'(w), w.n)[k] == OwnDeep(w.f.s0, w.f.r0, w.n)[k]
  {
    hide EntryMap, Merged, Deep, NewRank, Union, UnitedKeys, Items;
    RewrittenAfter(w);
    var f, n := w.f, w.n;
    ReadyBasics(f, n, w.c);
    SettledItems(f, n);
    var v := OwnMap(f.s0[n])[k];
    ChildOf(f.s0, f.r0, n, k);
    AgreesAfter(w);
    ShallowAgrees(f.s, f.r, w.s', Rank'(w), f.done, v);
  }

  lemma MappingMeaning(w: Rewrite)
    requires Valid(w) && Ranked(w.f.s0, w.f.r0)
    ensures w.n in w.f.r && w.f.r[w.n] > 0 && Ranked(w.s', Rank'(w)) && w.n in w.s'
    ensures Shallow(w.s', Rank'(w), w.n) == Deep(w.f.s0, w.f.r0, w.n)
  {
    hide EntryMap, NewRank, Ranked, Items, ShallowFrom, DeepFrom, OwnTrees, Explicit, Ready, RewriteOf;
    AfterBasics(w);
    SourcesMeaning(w);
    OwnMeaningAfter(w);
  }

  // ---------- All finished nodes ----------

  lemma StillRewritten(w: Rewrite, x: Id)
    requires Valid(w) && x in w.f.s0 && x in w.f.done && HasMerge(w.f.s0[x])
    ensures w.n in w.f.r && w.f.r[w.n] > 0 && Ranked(w.f.s0, w.f.r0) && Ranked(w.s', Rank'(w))
    ensures x in w.s' && w.s'[x].Mapping? && Rewritten(After(w), x)
  {
    hide EntryMap, OwnMap, Merged, NewRank, Union, UnitedKeys, Shallow, Deep, United, Ranked, Ready, RewriteOf;
    AfterBasics(w);
    WasRewritten(w, x);
    forall k | k in UnitedKeys(w.f.s0, w.f.r0, x) ensures United(After(w), x, k) {
      StillUnited(w, x, k);
    }
  }

  /** A finished mapping is left alone. */
  lemma WasRewritten(w: Rewrite, x: Id)
    requires Valid(w) && x in w.f.s0 && x in w.f.done && HasMerge(w.f.s0[x])
    ensures Ranked(w.f.s0, w.f.r0) && Ranked(w.f.s, w.f.r) && x in w.f.s && w.f.s[x].Mapping? && w.f.s0[x].Mapping?
    ensures Rewritten(w.f, x) && x in w.s' && w.s'[x] == w.f.s[x]
  {
    hide EntryMap, OwnMap, Merged, NewRank, Union, UnitedKeys, Shallow, Deep, United, Rewritten;
    ReadyBasics(w.f, w.n, w.c);
    KindKept(w.f, x);
  }

  lemma StillUnited(w: Rewrite, x: Id, k: string)
    requires Valid(w) && x in w.f.s0 && x in w.f.done && x in w.s' && w.s'[x] == w.f.s[x] && w.f.s0[x].Mapping?
    requires Ranked(w.f.s0, w.f.r0) && Ranked(w.f.s, w.f.r) && United(w.f, x, k)
    ensures w.n in w.f.r && w.f.r[w.n] > 0 && Ranked(w.s', Rank'(w)) && United(After(w), x, k)
  {
    hide EntryMap, NewRank, Union, Carried, CarrierOf, Ready, RewriteOf, ShallowDict, ShallowFrom, OwnTrees;
    AgreesAfter(w);
    var v := OwnMap(w.f.s[x])[k];
    ChildWithin(w.f.s, w.f.done, x, k);
    ShallowDictAgrees(w.f.s, w.f.r, w.s', Rank'(w), w.f.done, v);
    ShallowFromAgrees(w.f.s, w.f.r, w.s', Rank'(w), w.f.done, v, 0);
  }

  lemma FramedAfter(w: Rewrite)
    requires Valid(w)
    ensures w.n in w.f.r && w.f.r[w.n] > 0 && Framed(After(w))
  {
    hide EntryMap, Merged, NewRank, Shallow, Deep, Rewritten, Wf;
    NewIds(w);
    WfAfter(w);
    ClosedAfter(w);
    ReadyBasics(w.f, w.n, w.c);
    var g := After(w);
    forall x | x in g.s0
        ensures g.r[x] == g.r0[x] && SameShape(g.s0[x], g.s[x]) && (x !in g.done ==> g.s[x] == g.s0[x]) {
      ShapeAfter(w, x);
    }
  }

  lemma MeaningKept(w: Rewrite, x: Id)
    requires Valid(w) && x in w.f.s0 && x in w.f.done && x != w.n
    ensures w.n in w.f.r && w.f.r[w.n] > 0 && Ranked(w.s', Rank'(w)) && x in w.s' && Ranked(w.f.s0, w.f.r0)
    ensures Shallow(w.s', Rank'(w), x) == Deep(w.f.s0, w.f.r0, x)
  {
    hide EntryMap, Merged, NewRank, Shallow, Deep, Rewritten, RewriteOf;
    AfterBasics(w);
    ReadyBasics(w.f, w.n, w.c);
    NewIds(w);
    AgreesAfter(w);
    assert x in w.f.s;
    ShallowAgrees(w.f.s, w.f.r, w.s', Rank'(w), w.f.done, x);
  }

  lemma WasDone(w: Rewrite, x: Id)
    requires Valid(w) && x in w.f.s0 && x != w.n && w.n in w.f.r && w.f.r[w.n] > 0 && x in After(w).done
    ensures x in w.f.done
  {
    hide EntryMap, Merged, NewRank, RewriteOf;
    ReadyBasics(w.f, w.n, w.c);
    NewIds(w);
  }

  lemma MeaningAfter(w: Rewrite, x: Id)
    requires Valid(w) && w.n in w.f.r && w.f.r[w.n] > 0 && x in w.f.s0 && x in After(w).done
    ensures Ranked(w.s', Rank'(w)) && x in w.s' && Ranked(w.f.s0, w.f.r0)
    ensures Shallow(w.s', Rank'(w), x) == Deep(w.f.s0, w.f.r0, x)
  {
    hide Ready, RewriteOf, NewRank, Ranked, Shallow, Deep;
    AfterBasics(w);
    if x == w.n {
      MappingMeaning(w);
    } else {
      WasDone(w, x);
      MeaningKept(w, x);
    }
  }

  lemma RewrittenAll(w: Rewrite, x: Id)
    requires Valid(w) && w.n in w.f.r && w.f.r[w.n] > 0 && x in w.f.s0 && x in After(w).done && HasMerge(w.f.s0[x])
    ensures Ranked(w.f.s0, w.f.r0) && Ranked(w.s', Rank'(w)) && x in w.s' && w.s'[x].Mapping? && Rewritten(After(w), x)
  {
    hide Ready, RewriteOf, NewRank, Ranked, Rewritten;
    if x == w.n {
      RewrittenAfter(w);
    } else {
      WasDone(w, x);
      StillRewritten(w, x);
    }
  }

  /** Finishing a mapping that merges, with the collected keys rewritten. */
  lemma FinishMerging(w: Rewrite)
    requires Valid(w)
    ensures w.n in w.f.r && w.f.r[w.n] > 0 && Fixed(After(w))
  {
    hide EntryMap, Merged, NewRank, Shallow, Deep, Rewritten, RewriteOf, Ready;
    FramedAfter(w);
    var g := After(w);
    forall x | x in g.s0 && x in g.done ensures Shallow(g.s, g.r, x) == Deep(g.s0, g.r0, x) { MeaningAfter(w, x); }
    forall x | x in g.s0 && x in g.done && HasMerge(g.s0[x]) ensures Rewritten(g, x) { RewrittenAll(w, x); }
  }
}
