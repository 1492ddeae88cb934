/** Each step of fixDeepMerge keeps the run fixed. */
module DeepMergeSteps {
  import opened YamlNodes
  import opened DeepMerge
  import opened DeepMergeMeaning

  // ---------- Finishing a node that does not merge ----------

  lemma FinishPlain(f: Run, x: Id)
    requires Fixed(f) && x in f.s0 && !HasMerge(f.s0[x]) && Within(f.s0[x], f.done)
    ensures Fixed(f.(done := f.done + {x}))
  {
    hide Shallow, Deep, Rewritten, EntryMap, Ranked, Wf;
    Basics(f);
    assert f.s[x] == f.s0[x] by { assert SameShape(f.s0[x], f.s[x]); }
    var g := f.(done := f.done + {x});
    forall y | y in g.done ensures Within(f.s[y], g.done) {
      if y in f.done { assert Within(f.s[y], f.done); }
    }
    PlainMeaning(f, x);
    forall y | y in g.s0 && y in g.done && HasMerge(g.s0[y]) ensures Rewritten(g, y) {
      assert Rewritten(f, y);
      SameRewritten(f, g, y);
    }
  }

  lemma SameRewritten(f: Run, g: Run, x: Id)
    requires Fixed(f) && x in f.s0 && HasMerge(f.s0[x]) && Rewritten(f, x) && g == f.(done := g.done)
    ensures f.s[x].Mapping? && Rewritten(g, x)
  {
    assert SameShape(f.s0[x], f.s[x]);
    forall k | k in UnitedKeys(f.s0, f.r0, x) ensures United(g, x, k) { assert United(f, x, k); }
  }

  lemma PlainMeaning(f: Run, x: Id)
    requires Fixed(f) && x in f.s0 && !HasMerge(f.s0[x]) && f.s[x] == f.s0[x] && Within(f.s0[x], f.done)
    ensures Shallow(f.s, f.r, x) == Deep(f.s0, f.r0, x)
  {
    var nd := f.s0[x];
    assert Below(f.s0, f.r0, x, nd);
    if nd.Mapping? {
      PlainMapping(f, x);
    } else if nd.Alias? {
      assert Children(nd)[0] == nd.target;
    } else {
      assert forall i | 0 <= i < |Children(nd)| ::
          Shallow(f.s, f.r, Children(nd)[i]) == Deep(f.s0, f.r0, Children(nd)[i]);
      assert ShallowList(f.s, f.r, x) == DeepList(f.s0, f.r0, x);
    }
  }

  lemma PlainMapping(f: Run, n: Id)
    requires Fixed(f) && n in f.s0 && f.s0[n].Mapping? && !HasMerge(f.s0[n]) && f.s[n] == f.s0[n]
             && Within(f.s0[n], f.done)
    ensures ShallowDict(f.s, f.r, n) == DeepDict(f.s0, f.r0, n)
  {
    hide EntryMap, Deep, DeepDict, Rewritten;
    assert Items(f.s, f.r, n) == [];
    PlainExplicit(f.s0, f.r0, n);
    forall k | k in OwnMap(f.s0[n])
      ensures OwnTrees(f.s, f.r, n)[k] == OwnDeep(f.s0, f.r0, n)[k]
    {
      ChildOf(f.s0, f.r0, n, k);
      var i := EntryIndex(f.s0[n].entries, k);
      assert Children(f.s0[n])[i] == OwnMap(f.s0[n])[k];
    }
  }

  // ---------- Finishing a mapping that merges ----------

  ghost function NewRank(r: Rank, n: Id, ids: map<string, Id>): Rank
    requires n in r && r[n] > 0
  {
    r + (map x | x in ids.Values :: r[n] - 1)
  }

  /** A mapping that merges, all of whose children are finished, with what was collected for it. */
  ghost predicate Ready(f: Run, n: Id, c: Collected) {
    && Fixed(f)
    && n in f.s0 && n !in f.done && HasMerge(f.s0[n]) && Within(f.s0[n], f.done)
    && f.s[n] == f.s0[n]
    && (forall k :: k in c <==> 2 * |Merged(f.s, f.r, n, k)| > OwnLength(f.s, n, k))
    && (forall k | k in c :: c[k] == Merged(f.s, f.r, n, k))
  }

  ghost function Finish(f: Run, n: Id, s': Store, ids: map<string, Id>): Run
    requires n in f.r && f.r[n] > 0
  {
    Run(f.s0, f.r0, s', NewRank(f.r, n, ids), f.done + {n} + ids.Values)
  }

  lemma ReadyBasics(f: Run, n: Id, c: Collected)
    requires Ready(f, n, c)
    ensures Framed(f) && Ranked(f.s0, f.r0) && Ranked(f.s, f.r) && n in f.s && f.s[n].Mapping? && f.r[n] > 0
    ensures Settled(f, n)
  {
    ChildOf(f.s0, f.r0, n, MERGE);
  }

  // ---------- The length of what is collected ----------

  lemma {:induction false} EntryCount(es: seq<Entry>)
    requires UniqueKeys(es)
    ensures |EntryMap(es)| == |es|
  {
    if es != [] {
      EntryCount(es[1..]);
      if es[0].key in EntryMap(es[1..]) {
        var i := EntryIndex(es[1..], es[0].key);
        assert false;
      }
      assert EntryMap(es).Keys == EntryMap(es[1..]).Keys + {es[0].key};
      assert |EntryMap(es).Keys| == |EntryMap(es)| && |EntryMap(es[1..]).Keys| == |EntryMap(es[1..])|;
    }
  }

  /** The merge key gathered is that of the first literal value of the original document that has one. */
  lemma {:induction false} MergeCarried(f: Run, n: Id, k: string)
    requires Fixed(f) && Settled(f, n) && f.s0[n].Mapping?
    ensures f.s[n].Mapping?
    ensures Carries(f, EntryMap(Gather(f.s, f.r, n, k)), n, k)
    decreases f.r0[n], 1
  {
    hide EntryMap, ShallowDict, Shallow, Deep, DeepDict, OwnTrees, Items, Below, GatherFrom, CarrierFrom, LiteralKeys;
    KindKept(f, n);
    ItemsKept(f, n);
    MergeCarriedFrom(f, n, 0, k);
    EmptyEntryMap();
    EntryMapConcat(OwnEntries(f.s, n, k), GatherFrom(f.s, f.r, n, 0, k));
    if f.s[n] != f.s0[n] {
      assert Rewritten(f, n) by { assert SameShape(f.s0[n], f.s[n]); }
    }
    if f.s[n] != f.s0[n] && k in UnitedKeys(f.s0, f.r0, n) {
      assert United(f, n, k);
    } else if k in OwnMap(f.s0[n]) {
      ChildOf(f.s0, f.r0, n, k);
      KindKept(f, OwnMap(f.s0[n])[k]);
    }
  }

  lemma {:induction false} MergeCarriedFrom(f: Run, n: Id, j: nat, k: string)
    requires Fixed(f) && Settled(f, n) && f.s0[n].Mapping? && f.s[n].Mapping?
    requires j <= |Items(f.s0, f.r0, n)|
    ensures |Items(f.s, f.r, n)| == |Items(f.s0, f.r0, n)|
    ensures CarriedBy(f, EntryMap(GatherFrom(f.s, f.r, n, j, k)), CarrierFrom(f.s0, f.r0, n, j, k))
    decreases f.r0[n], 0, |Items(f.s0, f.r0, n)| - j
  {
    hide EntryMap, Gather, CarrierOf, Items, Ranked, Fixed, Framed;
    Basics(f);
    ItemsKept(f, n);
    EmptyEntryMap();
    if j < |Items(f.s0, f.r0, n)| {
      MergeCarriedFrom(f, n, j + 1, k);
      if Aliased(f.s0, Items(f.s0, f.r0, n)[j]) {
        SourceSettled(f, n, j);
        MergeCarried(f, Source(f.s0, f.r0, n, j), k);
      }
      EntryMapConcat(GatherItem(f.s, f.r, n, j, k), GatherFrom(f.s, f.r, n, j + 1, k));
    }
  }

  /** The merged content counts the sub-keys of the original document. */
  lemma MergedCount(f: Run, n: Id, k: string)
    requires Fixed(f) && Settled(f, n) && f.s0[n].Mapping?
    ensures f.s[n].Mapping? && |Merged(f.s, f.r, n, k)| == SubKeys(f.s0, f.r0, n, k)
  {
    hide EntryMap, Merged, Gather, GatherTrees, Union, CarrierOf, Shallow, Fixed;
    Basics(f);
    GatherIsUnion(f, n, k);
    MergeCarried(f, n, k);
    MergedMeaning(f.s, f.r, n, k);
    MergedMap(f.s, f.r, n, k);
    var es := Merged(f.s, f.r, n, k);
    EntryCount(es);
    CountWithout(EntryMap(es), Union(f.s0, f.r0, n, k));
  }

  lemma MergedMap(s: Store, r: Rank, n: Id, k: string)
    requires Ranked(s, r) && n in s && s[n].Mapping?
    ensures EntryMap(Merged(s, r, n, k)) == EntryMap(Gather(s, r, n, k))
  {
    AppendNewMap([], Gather(s, r, n, k));
  }

  lemma CountWithout<V, W>(m: map<string, V>, u: map<string, W>)
    requires u.Keys == m.Keys - {MERGE}
    ensures |m| == |u| + (if MERGE in m then 1 else 0)
  {
    assert |m| == |m.Keys| && |u| == |u.Keys|;
    if MERGE in m {
      assert m.Keys == u.Keys + {MERGE};
    } else {
      assert m.Keys == u.Keys;
    }
  }

  /** A key collected is united, the merge key is none, and a united key not collected has a literal value. */
  lemma CollectedKeys(f: Run, n: Id, c: Collected)
    requires Ready(f, n, c)
    ensures MERGE !in c
    ensures forall k | k in c :: k in UnitedKeys(f.s0, f.r0, n)
    ensures forall k | k in UnitedKeys(f.s0, f.r0, n) && k !in c :: Literal(f.s0, n, k)
  {
    hide EntryMap, Merged, LiteralKeys, Rewritten, Shallow, Deep, Ready, UnitedKeys;
    ReadyBasics(f, n, c);
    MergeIsNoLiteral(f.s0, f.r0, n);
    forall k ensures k in c ==> k in UnitedKeys(f.s0, f.r0, n) && k != MERGE
             ensures k in UnitedKeys(f.s0, f.r0, n) && k !in c ==> Literal(f.s0, n, k)
    {
      CollectedKey(f, n, c, k);
    }
  }

  lemma CollectedKey(f: Run, n: Id, c: Collected, k: string)
    requires Ready(f, n, c)
    ensures Ranked(f.s0, f.r0) && f.s0[n].Mapping?
    ensures k in c ==> k in UnitedKeys(f.s0, f.r0, n)
    ensures k in UnitedKeys(f.s0, f.r0, n) && k !in c ==> Literal(f.s0, n, k)
  {
    hide EntryMap, Merged, Gather, LiteralKeys, Rewritten, Shallow, Deep, SubKeys;
    ReadyBasics(f, n, c);
    GatherIsUnion(f, n, k);
    MergedMeaning(f.s, f.r, n, k);
    MergedCount(f, n, k);
    if k in OwnMap(f.s0[n]) {
      ChildOf(f.s0, f.r0, n, k);
      KindKept(f, OwnMap(f.s0[n])[k]);
      assert OwnMap(f.s0[n])[k] in f.s0 && OwnMap(f.s0[n])[k] in f.s;
      if !Literal(f.s0, n, k) {
        assert OwnLength(f.s, n, k) == ContentLength(f.s0[OwnMap(f.s0[n])[k]]);
        assert Withstands(f.s0, f.r0, n, k) <==> 2 * |Merged(f.s, f.r, n, k)| <= OwnLength(f.s, n, k);
      }
    } else {
      assert OwnLength(f.s, n, k) == 0;
    }
  }

  lemma {:induction false} MergeIsNoLiteral(s: Store, r: Rank, n: Id)
    requires Ranked(s, r) && n in s && s[n].Mapping?
    ensures MERGE !in LiteralKeys(s, r, n)
    decreases r[n], 1
  {
    MergeIsNoLiteralFrom(s, r, n, 0);
  }

  lemma {:induction false} MergeIsNoLiteralFrom(s: Store, r: Rank, n: Id, j: nat)
    requires Ranked(s, r) && n in s && s[n].Mapping? && j <= |Items(s, r, n)|
    ensures MERGE !in LiteralKeysFrom(s, r, n, j)
    decreases r[n], 0, |Items(s, r, n)| - j
  {
    hide EntryMap, Items;
    if j < |Items(s, r, n)| {
      MergeIsNoLiteralFrom(s, r, n, j + 1);
      var i := Items(s, r, n)[j];
      if Aliased(s, i) {
        assert Source(s, r, n, j) == s[i].target;
        MergeIsNoLiteral(s, r, s[i].target);
      }
    }
  }

  /** Gathered values are finished. */
  ghost predicate AllIn(es: seq<Entry>, d: set<Id>) {
    forall i | 0 <= i < |es| :: es[i].value in d
  }

  lemma {:induction false} GatherDone(f: Run, n: Id, k: string)
    requires Fixed(f) && Settled(f, n) && f.s0[n].Mapping?
    ensures f.s[n].Mapping? && AllIn(Gather(f.s, f.r, n, k), f.done)
    decreases f.r0[n], 1
  {
    hide EntryMap, Items, Rewritten, Shallow, Deep, GatherFrom;
    KindKept(f, n);
    ItemsKept(f, n);
    GatherFromDone(f, n, 0, k);
    if Literal(f.s, n, k) {
      OwnValueDone(f, n, k);
      var v := OwnMap(f.s[n])[k];
      assert Within(f.s[v], f.done);
      assert forall i | 0 <= i < |f.s[v].entries| :: Children(f.s[v])[i] == f.s[v].entries[i].value;
    }
  }

  lemma OwnValueDone(f: Run, n: Id, k: string)
    requires Fixed(f) && Settled(f, n) && f.s[n].Mapping? && k in OwnMap(f.s[n])
    ensures OwnMap(f.s[n])[k] in f.done
  {
    hide EntryMap, Rewritten, Shallow, Deep;
    if n in f.done {
      ChildWithin(f.s, f.done, n, k);
    } else {
      SettledItems(f, n);
    }
  }

  lemma {:induction false} GatherFromDone(f: Run, n: Id, j: nat, k: string)
    requires Fixed(f) && Settled(f, n) && f.s0[n].Mapping? && f.s[n].Mapping?
    requires j <= |Items(f.s0, f.r0, n)|
    ensures |Items(f.s, f.r, n)| == |Items(f.s0, f.r0, n)|
    ensures AllIn(GatherFrom(f.s, f.r, n, j, k), f.done)
    decreases f.r0[n], 0, |Items(f.s0, f.r0, n)| - j
  {
    hide EntryMap, Gather, Items, Ranked, Fixed, Framed;
    Basics(f);
    ItemsKept(f, n);
    if j < |Items(f.s0, f.r0, n)| {
      GatherFromDone(f, n, j + 1, k);
      if Aliased(f.s0, Items(f.s0, f.r0, n)[j]) {
        SourceSettled(f, n, j);
        GatherDone(f, Source(f.s0, f.r0, n, j), k);
      }
    }
  }

  lemma SourceSettled(f: Run, n: Id, j: nat)
    requires Framed(f) && Settled(f, n) && j < |Items(f.s0, f.r0, n)| && Aliased(f.s0, Items(f.s0, f.r0, n)[j])
    ensures var t := Source(f.s0, f.r0, n, j);
            t == f.s0[Items(f.s0, f.r0, n)[j]].target && Settled(f, t) && f.s0[t].Mapping?
  {
    ItemsKept(f, n);
    SettledItems(f, n);
  }

  // ---------- What is read through a finished merge value ----------

  /** A mapping of a later store with the merge entry of an original mapping. */
  ghost predicate Merges(f: Run, s': Store, r': Rank, x: Id, c: Id) {
    && Fixed(f) && Agree(f.s, f.r, s', r', f.done)
    && x in s' && HasMerge(s'[x]) && c in f.s0 && HasMerge(f.s0[c])
    && EntryMap(s'[x].entries)[MERGE] == EntryMap(f.s0[c].entries)[MERGE] && EntryMap(f.s0[c].entries)[MERGE] in f.done
  }

  lemma SameSources(f: Run, s': Store, r': Rank, x: Id, c: Id)
    requires Merges(f, s', r', x, c)
    ensures Ranked(f.s0, f.r0) && Items(s', r', x) == Items(f.s0, f.r0, c)
    ensures forall j | 0 <= j < |Items(f.s0, f.r0, c)| ::
              var t := Source(f.s0, f.r0, c, j);
              Source(s', r', x, j) == t && t in f.s0 && t in f.done && f.s0[t].Mapping? && s'[t].Mapping?
  {
    hide EntryMap, Below, Shallow, Deep, Rewritten;
    var v := EntryMap(f.s0[c].entries)[MERGE];
    ChildOf(f.s0, f.r0, c, MERGE);
    KindKept(f, v);
    assert Within(f.s[v], f.done);
    assert MergesMappings(f.s0, f.r0);
    forall j | 0 <= j < |Items(f.s0, f.r0, c)|
      ensures var t := Source(f.s0, f.r0, c, j);
              Source(s', r', x, j) == t && t in f.s0 && t in f.done && f.s0[t].Mapping? && s'[t].Mapping?
    {
      var i := Items(f.s0, f.r0, c)[j];
      assert f.s0[v].Sequence? ==> Children(f.s[v])[j] == i;
      KindKept(f, i);
      assert Within(f.s[i], f.done);
      if f.s0[i].Alias? { assert Children(f.s[i])[0] == f.s0[i].target; }
      KindKept(f, Source(f.s0, f.r0, c, j));
    }
  }

  /** Through it the deep meaning of the original mapping's sources is read. */
  lemma {:induction false} ReadsThrough(f: Run, s': Store, r': Rank, x: Id, c: Id, j: nat)
    requires Merges(f, s', r', x, c) && Ranked(f.s0, f.r0) && j <= |Items(f.s0, f.r0, c)|
    ensures |Items(s', r', x)| == |Items(f.s0, f.r0, c)|
    ensures ShallowFrom(s', r', x, j) == DeepFrom(f.s0, f.r0, c, j)
    decreases |Items(f.s0, f.r0, c)| - j
  {
    hide EntryMap, Items, ShallowDict, DeepDict, Fixed, Ranked;
    SameSources(f, s', r', x, c);
    if j < |Items(f.s0, f.r0, c)| {
      ReadsThrough(f, s', r', x, c, j + 1);
      SourceReads(f, s', r', Source(f.s0, f.r0, c, j));
    }
  }

  lemma SourceReads(f: Run, s': Store, r': Rank, t: Id)
    requires Fixed(f) && Agree(f.s, f.r, s', r', f.done) && t in f.s0 && t in f.done && f.s0[t].Mapping?
             && s'[t].Mapping?
    ensures ShallowDict(s', r', t) == DeepDict(f.s0, f.r0, t)
  {
    hide ShallowDict, DeepDict, Rewritten;
    assert Shallow(f.s, f.r, t) == Deep(f.s0, f.r0, t);
    ShallowAgrees(f.s, f.r, s', r', f.done, t);
  }
}
