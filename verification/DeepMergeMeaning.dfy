/** Why the rewriting of DeepMerge gives a document its deep-merged meaning. */
module DeepMergeMeaning {
  import opened YamlNodes
  import opened DeepMerge

  // ---------- The trees behind gathered entries ----------

  ghost predicate InStore(s: Store, m: map<string, Id>) {
    forall k | k in m :: m[k] in s
  }

  ghost function TreesOf(s: Store, r: Rank, m: map<string, Id>): map<string, Tree>
    requires Ranked(s, r) && InStore(s, m)
  {
    map k | k in m && k != MERGE :: Shallow(s, r, m[k])
  }

  lemma OwnTreesAre(s: Store, r: Rank, n: Id)
    requires Ranked(s, r) && n in s && s[n].Mapping?
    ensures InStore(s, EntryMap(s[n].entries))
    ensures OwnTrees(s, r, n) == TreesOf(s, r, EntryMap(s[n].entries))
  {
    forall k | k in EntryMap(s[n].entries) ensures EntryMap(s[n].entries)[k] in s { ChildOf(s, r, n, k); }
  }

  /** What the gathered entries of a key decode to. */
  ghost function GatherTrees(s: Store, r: Rank, n: Id, k: string): map<string, Tree>
    requires Ranked(s, r) && n in s && s[n].Mapping?
    decreases r[n], 1
  {
    GatherTreesFrom(s, r, n, 0, k) + OwnGathered(s, r, n, k)
  }

  ghost function OwnGathered(s: Store, r: Rank, n: Id, k: string): map<string, Tree>
    requires Ranked(s, r) && n in s && s[n].Mapping?
  {
    if Literal(s, n, k) then OwnTrees(s, r, OwnMap(s[n])[k]) else map[]
  }

  ghost function GatherTreesFrom(s: Store, r: Rank, n: Id, j: nat, k: string): map<string, Tree>
    requires Ranked(s, r) && n in s && s[n].Mapping? && j <= |Items(s, r, n)|
    decreases r[n], 0, |Items(s, r, n)| - j
  {
    if j == |Items(s, r, n)| then map[]
    else
      var i := Items(s, r, n)[j];
      GatherTreesFrom(s, r, n, j + 1, k)
      + (if Aliased(s, i) then assert Source(s, r, n, j) == s[i].target; GatherTrees(s, r, s[i].target, k) else map[])
  }

  /** Gathered values lie at least two levels below the mapping they are gathered for. */
  ghost predicate WellBelow(s: Store, r: Rank, n: Id, es: seq<Entry>)
    requires n in r
  {
    forall i | 0 <= i < |es| :: es[i].value in s && es[i].value in r && r[es[i].value] + 1 < r[n]
  }

  lemma WellBelowMap(s: Store, r: Rank, n: Id, es: seq<Entry>)
    requires n in r && WellBelow(s, r, n, es)
    ensures InStore(s, EntryMap(es))
  {
    forall k | k in EntryMap(es) ensures EntryMap(es)[k] in s { var i := EntryIndex(es, k); }
  }

  lemma ConcatMeaning(s: Store, r: Rank, n: Id, a: seq<Entry>, b: seq<Entry>)
    requires Ranked(s, r) && n in r && WellBelow(s, r, n, a) && WellBelow(s, r, n, b)
    ensures WellBelow(s, r, n, a + b) && InStore(s, EntryMap(a)) && InStore(s, EntryMap(b))
            && InStore(s, EntryMap(a + b))
    ensures TreesOf(s, r, EntryMap(a + b)) == TreesOf(s, r, EntryMap(b)) + TreesOf(s, r, EntryMap(a))
  {
    hide Shallow, EntryMap, Ranked;
    EntryMapConcat(a, b);
    WellBelowMap(s, r, n, a);
    WellBelowMap(s, r, n, b);
  }

  lemma OwnMeaning(s: Store, r: Rank, n: Id, k: string)
    requires Ranked(s, r) && n in s && s[n].Mapping?
    ensures WellBelow(s, r, n, OwnEntries(s, n, k)) && InStore(s, EntryMap(OwnEntries(s, n, k)))
    ensures TreesOf(s, r, EntryMap(OwnEntries(s, n, k))) == OwnGathered(s, r, n, k)
  {
    hide Shallow, OwnTrees;
    if Literal(s, n, k) {
      var v := OwnMap(s[n])[k];
      ChildOf(s, r, n, k);
      OwnTreesAre(s, r, v);
      assert Below(s, r, v, s[v]);
      assert forall i | 0 <= i < |s[v].entries| :: Children(s[v])[i] == s[v].entries[i].value;
    }
  }

  lemma {:induction false} GatherMeaning(s: Store, r: Rank, n: Id, k: string)
    requires Ranked(s, r) && n in s && s[n].Mapping?
    ensures WellBelow(s, r, n, Gather(s, r, n, k)) && InStore(s, EntryMap(Gather(s, r, n, k)))
    ensures TreesOf(s, r, EntryMap(Gather(s, r, n, k))) == GatherTrees(s, r, n, k)
    decreases r[n], 1
  {
    hide TreesOf, EntryMap, OwnGathered, GatherTreesFrom, GatherFrom, OwnEntries;
    GatherFromMeaning(s, r, n, 0, k);
    OwnMeaning(s, r, n, k);
    ConcatMeaning(s, r, n, OwnEntries(s, n, k), GatherFrom(s, r, n, 0, k));
  }

  lemma {:induction false} GatherFromMeaning(s: Store, r: Rank, n: Id, j: nat, k: string)
    requires Ranked(s, r) && n in s && s[n].Mapping? && j <= |Items(s, r, n)|
    ensures WellBelow(s, r, n, GatherFrom(s, r, n, j, k)) && InStore(s, EntryMap(GatherFrom(s, r, n, j, k)))
    ensures TreesOf(s, r, EntryMap(GatherFrom(s, r, n, j, k))) == GatherTreesFrom(s, r, n, j, k)
    decreases r[n], 0, |Items(s, r, n)| - j
  {
    hide Shallow, Gather, GatherTrees, Items;
    if j < |Items(s, r, n)| {
      GatherFromMeaning(s, r, n, j + 1, k);
      var i := Items(s, r, n)[j];
      if Aliased(s, i) {
        assert Source(s, r, n, j) == s[i].target;
        GatherMeaning(s, r, s[i].target, k);
      }
      ConcatMeaning(s, r, n, GatherItem(s, r, n, j, k), GatherFrom(s, r, n, j + 1, k));
    }
  }

  /** The merged content of a key decodes like everything gathered for it. */
  lemma MergedMeaning(s: Store, r: Rank, n: Id, k: string)
    requires Ranked(s, r) && n in s && s[n].Mapping?
    ensures var es := Merged(s, r, n, k);
            && UniqueKeys(es) && WellBelow(s, r, n, es) && InStore(s, EntryMap(es))
            && TreesOf(s, r, EntryMap(es)) == GatherTrees(s, r, n, k)
            && (es == [] <==> Gather(s, r, n, k) == [])
  {
    var g, es := Gather(s, r, n, k), Merged(s, r, n, k);
    GatherMeaning(s, r, n, k);
    AppendNewUnique([], g);
    AppendNewMap([], g);
    assert EntryMap(es) == EntryMap(g);
    forall i | 0 <= i < |es| ensures es[i].value in s && r[es[i].value] + 1 < r[n] {
      AppendNewFrom([], g, es[i]);
      assert es[i] in g;
    }
    if g != [] { EntryKey(g, 0); }
    if es != [] { EntryKey(es, 0); }
  }

  // ---------- The state of a run ----------

  /** The original store and ranks, the current ones, and the finished nodes, new nodes included. */
  datatype Run = Run(s0: Store, r0: Rank, s: Store, r: Rank, done: set<Id>)

  /** How a finished mapping that merges reads each key. */
  ghost predicate Rewritten(f: Run, x: Id)
    requires Ranked(f.s0, f.r0) && Ranked(f.s, f.r)
    requires x in f.s0 && x in f.s && f.s0[x].Mapping? && f.s[x].Mapping?
  {
    && (forall k | k in UnitedKeys(f.s0, f.r0, x) :: United(f, x, k))
    && (forall k | k !in UnitedKeys(f.s0, f.r0, x) ::
          && (k in OwnMap(f.s[x]) <==> k in OwnMap(f.s0[x]))
          && (k in OwnMap(f.s[x]) ==> OwnMap(f.s[x])[k] == OwnMap(f.s0[x])[k]))
  }

  /** The key's own value, new or as it was, is a literal mapping whose explicit entries are the union
      and whose merge key is the carried one. */
  ghost predicate United(f: Run, x: Id, k: string)
    requires Ranked(f.s0, f.r0) && Ranked(f.s, f.r) && x in f.s0 && f.s0[x].Mapping?
  {
    && Literal(f.s, x, k)
    && var v := OwnMap(f.s[x])[k];
    && (v in f.s0 ==> k in OwnMap(f.s0[x]) && OwnMap(f.s0[x])[k] == v)
    && f.s[v].entries != []
    && OwnTrees(f.s, f.r, v) == Union(f.s0, f.r0, x, k)
    && ShallowFrom(f.s, f.r, v, 0) == Carried(f.s0, f.r0, x, k)
    && Carries(f, EntryMap(f.s[v].entries), x, k)
  }

  /** The merge entry among the entries is that of the literal mapping which brings it. */
  ghost predicate Carries(f: Run, entries: map<string, Id>, x: Id, k: string)
    requires Ranked(f.s0, f.r0) && x in f.s0 && f.s0[x].Mapping?
  {
    CarriedBy(f, entries, CarrierOf(f.s0, f.r0, x, k))
  }

  ghost predicate CarriedBy(f: Run, entries: map<string, Id>, c: Carrier) {
    match c
    case Nobody => MERGE !in entries
    case By(m) =>
      && MERGE in entries && m in f.s0 && HasMerge(f.s0[m])
      && entries[MERGE] == EntryMap(f.s0[m].entries)[MERGE]
  }

  ghost predicate SameShape(a: Node, b: Node) {
    if HasMerge(a) then HasMerge(b) && EntryMap(b.entries)[MERGE] == EntryMap(a.entries)[MERGE] else a == b
  }

  ghost predicate Framed(f: Run) {
    && Wf(f.s0, f.r0) && Wf(f.s, f.r)
    && f.s0.Keys <= f.s.Keys <= f.s0.Keys + f.done
    && (forall x | x in f.s0 :: f.r[x] == f.r0[x] && SameShape(f.s0[x], f.s[x]))
    && (forall x | x in f.s0 && x !in f.done :: f.s[x] == f.s0[x])
    && Closed(f.s, f.done)
  }

  /** Every finished original node decodes shallowly to its deep meaning. */
  ghost predicate Fixed(f: Run) {
    && Framed(f)
    && (forall x | x in f.s0 && x in f.done :: Shallow(f.s, f.r, x) == Deep(f.s0, f.r0, x))
    && (forall x | x in f.s0 && x in f.done && HasMerge(f.s0[x]) :: Rewritten(f, x))
  }

  lemma Basics(f: Run)
    requires Fixed(f)
    ensures Framed(f) && Ranked(f.s0, f.r0) && Ranked(f.s, f.r) && f.s0.Keys <= f.s.Keys
  {}

  lemma KindKept(f: Run, x: Id)
    requires Framed(f) && x in f.s0
    ensures f.s[x].Mapping? <==> f.s0[x].Mapping?
    ensures !f.s0[x].Mapping? ==> f.s[x] == f.s0[x]
    ensures f.s0[x].Mapping? ==> (f.s[x].entries == [] <==> f.s0[x].entries == [])
    ensures HasMerge(f.s[x]) <==> HasMerge(f.s0[x])
  {
    assert SameShape(f.s0[x], f.s[x]);
  }

  /** Merge sources never change. */
  lemma ItemsKept(f: Run, n: Id)
    requires Framed(f) && n in f.s0
    ensures Items(f.s, f.r, n) == Items(f.s0, f.r0, n)
    ensures forall j | 0 <= j < |Items(f.s0, f.r0, n)| ::
              var i := Items(f.s0, f.r0, n)[j];
              && i in f.s0 && Source(f.s, f.r, n, j) == Source(f.s0, f.r0, n, j) && Source(f.s0, f.r0, n, j) in f.s0
              && (Aliased(f.s, i) <==> Aliased(f.s0, i))
              && (Aliased(f.s0, i) ==> f.s[i] == f.s0[i] && f.s0[i].target == Source(f.s0, f.r0, n, j))
  {
    hide EntryMap, Below;
    KindKept(f, n);
    if HasMerge(f.s0[n]) {
      ChildOf(f.s0, f.r0, n, MERGE);
      var v := EntryMap(f.s0[n].entries)[MERGE];
      KindKept(f, v);
      forall j | 0 <= j < |Items(f.s0, f.r0, n)|
        ensures var i := Items(f.s0, f.r0, n)[j];
                && i in f.s0 && Source(f.s, f.r, n, j) == Source(f.s0, f.r0, n, j)
                && (Aliased(f.s, i) <==> Aliased(f.s0, i))
                && (Aliased(f.s0, i) ==> f.s[i] == f.s0[i] && f.s0[i].target == Source(f.s0, f.r0, n, j))
      {
        var i := Items(f.s0, f.r0, n)[j];
        KindKept(f, i);
        KindKept(f, Source(f.s0, f.r0, n, j));
      }
    }
  }

  // ---------- Keys ----------

  lemma {:induction false} LiteralKeysAreKeys(s: Store, r: Rank, n: Id)
    requires Ranked(s, r) && n in s && s[n].Mapping?
    ensures LiteralKeys(s, r, n) <= ShallowDict(s, r, n).Keys
    decreases r[n], 1
  {
    hide Items, EntryMap, Shallow;
    LiteralKeysFromAreKeys(s, r, n, 0);
  }

  lemma {:induction false} LiteralKeysFromAreKeys(s: Store, r: Rank, n: Id, j: nat)
    requires Ranked(s, r) && n in s && s[n].Mapping? && j <= |Items(s, r, n)|
    ensures LiteralKeysFrom(s, r, n, j) <= ShallowFrom(s, r, n, j).Keys
    decreases r[n], 0, |Items(s, r, n)| - j
  {
    hide Items, EntryMap, Shallow;
    if j < |Items(s, r, n)| {
      LiteralKeysFromAreKeys(s, r, n, j + 1);
      var i := Items(s, r, n)[j];
      if Aliased(s, i) {
        assert Source(s, r, n, j) == s[i].target;
        LiteralKeysAreKeys(s, r, s[i].target);
      }
    }
  }

  /** Deep merging adds and removes no key. */
  lemma {:induction false} DeepKeys(s: Store, r: Rank, n: Id)
    requires Ranked(s, r) && n in s && s[n].Mapping?
    ensures DeepDict(s, r, n).Keys == ShallowDict(s, r, n).Keys
    decreases r[n], 1
  {
    hide Items, EntryMap, Shallow, Deep, UnitedDict, LiteralKeys, UnitedKeys;
    DeepFromKeys(s, r, n, 0);
    LiteralKeysAreKeys(s, r, n);
  }

  lemma {:induction false} DeepFromKeys(s: Store, r: Rank, n: Id, j: nat)
    requires Ranked(s, r) && n in s && s[n].Mapping? && j <= |Items(s, r, n)|
    ensures DeepFrom(s, r, n, j).Keys == ShallowFrom(s, r, n, j).Keys
    decreases r[n], 0, |Items(s, r, n)| - j
  {
    hide Items, EntryMap, Shallow, Deep, DeepDict, ShallowDict;
    if j < |Items(s, r, n)| {
      DeepFromKeys(s, r, n, j + 1);
      var t := Source(s, r, n, j);
      if s[t].Mapping? { DeepKeys(s, r, t); }
    }
  }

  // ---------- Gathering in the current store gives the union in the original one ----------

  /** A finished mapping has what it had and what was united explicitly. */
  lemma ExplicitDone(f: Run, v: Id)
    requires Fixed(f) && v in f.s0 && v in f.done && f.s0[v].Mapping?
    ensures f.s[v].Mapping? && OwnTrees(f.s, f.r, v) == Explicit(f.s0, f.r0, v)
  {
    hide EntryMap, Explicit, OwnTrees, UnitedDict, UnitedKeys, Shallow, Deep, Rewritten, Ranked;
    Basics(f);
    KindKept(f, v);
    if HasMerge(f.s0[v]) {
      forall k
        ensures k in OwnMap(f.s[v]) <==> k in OwnMap(f.s0[v]) || k in UnitedKeys(f.s0, f.r0, v)
        ensures k in OwnMap(f.s[v]) ==> OwnTrees(f.s, f.r, v)[k] == ExplicitAt(f.s0, f.r0, v, k)
      {
        ExplicitKey(f, v, k);
      }
      ExplicitByKey(f.s0, f.r0, v);
    } else {
      assert f.s[v] == f.s0[v] by { assert SameShape(f.s0[v], f.s[v]); }
      PlainExplicit(f.s0, f.r0, v);
      forall k | k in OwnMap(f.s0[v]) ensures OwnTrees(f.s, f.r, v)[k] == OwnDeep(f.s0, f.r0, v)[k] {
        OwnValueKept(f, v, k);
      }
    }
  }

  ghost function ExplicitAt(s: Store, r: Rank, n: Id, k: string): Tree
    requires Ranked(s, r) && n in s && s[n].Mapping? && (k in OwnMap(s[n]) || k in UnitedKeys(s, r, n))
  {
    if k in UnitedKeys(s, r, n) then Dict(UnitedDict(s, r, n, k)) else ChildOf(s, r, n, k); Deep(s, r, OwnMap(s[n])[k])
  }

  lemma ExplicitByKey(s: Store, r: Rank, n: Id)
    requires Ranked(s, r) && n in s && s[n].Mapping?
    ensures Explicit(s, r, n).Keys == OwnMap(s[n]).Keys + UnitedKeys(s, r, n)
    ensures forall k | k in Explicit(s, r, n) :: Explicit(s, r, n)[k] == ExplicitAt(s, r, n, k)
  {
    hide EntryMap, Deep, UnitedKeys, UnitedDict, Ranked;
  }

  /** An own value left alone decodes to its deep meaning. */
  lemma OwnValueKept(f: Run, v: Id, k: string)
    requires Fixed(f) && v in f.s0 && v in f.done && f.s0[v].Mapping? && f.s[v].Mapping?
    requires k in OwnMap(f.s[v]) && k in OwnMap(f.s0[v]) && OwnMap(f.s[v])[k] == OwnMap(f.s0[v])[k]
    ensures OwnTrees(f.s, f.r, v)[k] == OwnDeep(f.s0, f.r0, v)[k]
  {
    hide EntryMap, Shallow, Deep, Rewritten;
    ChildWithin(f.s, f.done, v, k);
    ChildOf(f.s0, f.r0, v, k);
  }

  lemma ExplicitKey(f: Run, v: Id, k: string)
    requires Fixed(f) && v in f.s0 && v in f.done && HasMerge(f.s0[v]) && f.s[v].Mapping?
    ensures k in OwnMap(f.s[v]) <==> k in OwnMap(f.s0[v]) || k in UnitedKeys(f.s0, f.r0, v)
    ensures k in OwnMap(f.s[v]) ==> OwnTrees(f.s, f.r, v)[k] == ExplicitAt(f.s0, f.r0, v, k)
  {
    hide EntryMap, Shallow, Deep, UnitedKeys, Union, Carried, CarrierOf;
    assert Rewritten(f, v);
    if k in UnitedKeys(f.s0, f.r0, v) {
      assert United(f, v, k);
    } else if k in OwnMap(f.s[v]) {
      OwnValueKept(f, v, k);
    }
  }

  /** Without a merge key a mapping has just its own values. */
  lemma PlainExplicit(s: Store, r: Rank, n: Id)
    requires Ranked(s, r) && n in s && s[n].Mapping? && !HasMerge(s[n])
    ensures Explicit(s, r, n) == OwnDeep(s, r, n) && DeepDict(s, r, n) == OwnDeep(s, r, n)
  {
    hide EntryMap, Deep, SubKeys, OwnLiteral;
    assert Items(s, r, n) == [];
    forall k | k in UnitedKeys(s, r, n)
      ensures k in OwnMap(s[n]) && OwnDeep(s, r, n)[k] == Dict(UnitedDict(s, r, n, k))
    {
      PlainUnited(s, r, n, k);
    }
  }

  lemma PlainUnited(s: Store, r: Rank, n: Id, k: string)
    requires Ranked(s, r) && n in s && s[n].Mapping? && !HasMerge(s[n]) && k in LiteralKeys(s, r, n)
    ensures Literal(s, n, k) && OwnDeep(s, r, n)[k] == Dict(UnitedDict(s, r, n, k))
  {
    hide EntryMap, Explicit;
    assert Items(s, r, n) == [];
    assert LiteralKeysFrom(s, r, n, 0) == {} && CarrierFrom(s, r, n, 0, k) == Nobody;
    assert UnionFrom(s, r, n, 0, k) == map[];
    ChildOf(s, r, n, k);
    var v := OwnMap(s[n])[k];
    assert Union(s, r, n, k) == Explicit(s, r, v);
    if !HasMerge(s[v]) { assert Items(s, r, v) == [] && DeepFrom(s, r, v, 0) == map[]; }
    assert UnitedDict(s, r, n, k) == DeepDict(s, r, v);
  }

  lemma EmptyExplicit(s: Store, r: Rank, v: Id)
    requires Ranked(s, r) && v in s && s[v] == Mapping([])
    ensures Explicit(s, r, v) == map[]
  {
    PlainExplicit(s, r, v);
    assert OwnDeep(s, r, v).Keys == {};
  }

  /** The mapping is finished, or all its children are. */
  ghost predicate Settled(f: Run, n: Id) {
    n in f.s0 && (n in f.done || Within(f.s0[n], f.done))
  }

  lemma SettledItems(f: Run, n: Id)
    requires Framed(f) && Settled(f, n)
    ensures forall j | 0 <= j < |Items(f.s0, f.r0, n)| :: Source(f.s0, f.r0, n, j) in f.done
    ensures forall k | f.s0[n].Mapping? && k in OwnMap(f.s0[n]) && f.s[n] == f.s0[n] :: OwnMap(f.s0[n])[k] in f.done
  {
    ItemsKept(f, n);
    if n in f.done {
      ItemsWithin(f.s, f.r, f.done, n);
      forall k | f.s0[n].Mapping? && k in OwnMap(f.s0[n]) && f.s[n] == f.s0[n] ensures OwnMap(f.s0[n])[k] in f.done {
        ChildWithin(f.s, f.done, n, k);
      }
    } else {
      UnfinishedItems(f, n);
    }
  }

  lemma UnfinishedItems(f: Run, n: Id)
    requires Framed(f) && n in f.s0 && n !in f.done && Within(f.s0[n], f.done)
    ensures forall j | 0 <= j < |Items(f.s0, f.r0, n)| :: Source(f.s0, f.r0, n, j) in f.done
    ensures forall k | f.s0[n].Mapping? && k in OwnMap(f.s0[n]) :: OwnMap(f.s0[n])[k] in f.done
  {
    // n is closed off by the finished nodes, so the closure lemmas apply to both together
    var d := f.done + {n};
    assert f.s[n] == f.s0[n];
    assert Within(f.s[n], d);
    forall x | x in f.done ensures Within(f.s[x], d) { assert Within(f.s[x], f.done); }
    ItemsKept(f, n);
    ItemsWithin(f.s, f.r, d, n);
    forall j | 0 <= j < |Items(f.s0, f.r0, n)| ensures Source(f.s0, f.r0, n, j) in f.done {
      assert Source(f.s, f.r, n, j) != n;
    }
    forall k | f.s0[n].Mapping? && k in OwnMap(f.s0[n]) ensures OwnMap(f.s0[n])[k] in f.done {
      ChildOf(f.s, f.r, n, k);
      ChildWithin(f.s, d, n, k);
    }
  }

  /** The own part: what a participant's own literal value contributes. */
  lemma OwnGatheredIsLiteral(f: Run, n: Id, k: string)
    requires Fixed(f) && Settled(f, n) && f.s[n].Mapping?
    requires f.s[n] == f.s0[n] || k !in UnitedKeys(f.s0, f.r0, n)
    ensures OwnGathered(f.s, f.r, n, k) == OwnLiteral(f.s0, f.r0, n, k)
    ensures OwnEntries(f.s, n, k) != [] <==> k in OwnLiteralKeys(f.s0, n)
  {
    hide EntryMap, ShallowDict, Shallow, Deep, Explicit, Union, OwnTrees, Items, Below;
    SettledItems(f, n);
    if f.s[n] != f.s0[n] {
      assert Rewritten(f, n) by { assert SameShape(f.s0[n], f.s[n]); }
      assert k !in OwnLiteralKeys(f.s0, n);
    }
    if k in OwnMap(f.s0[n]) {
      var v := OwnMap(f.s0[n])[k];
      ChildOf(f.s0, f.r0, n, k);
      KindKept(f, v);
      if Literal(f.s0, n, k) {
        if f.s[n] == f.s0[n] {
          assert v in f.done;
          ExplicitDone(f, v);
        } else {
          assert f.s0[v] == Mapping([]);
          EmptyExplicit(f.s0, f.r0, v);
          assert f.s[v] == Mapping([]);
          EmptyOwn(f.s, f.r, v);
        }
      }
    }
  }

  lemma EmptyOwn(s: Store, r: Rank, v: Id)
    requires Ranked(s, r) && v in s && s[v] == Mapping([])
    ensures OwnTrees(s, r, v) == map[]
  {}

  lemma {:induction false} GatherIsUnion(f: Run, n: Id, k: string)
    requires Fixed(f) && Settled(f, n) && f.s0[n].Mapping?
    ensures f.s[n].Mapping?
    ensures GatherTrees(f.s, f.r, n, k) == Union(f.s0, f.r0, n, k)
    ensures Gather(f.s, f.r, n, k) != [] <==> k in LiteralKeys(f.s0, f.r0, n)
    decreases f.r0[n], 1
  {
    hide EntryMap, ShallowDict, Shallow, Deep, Explicit, OwnTrees, Items, Below, GatherTreesFrom, UnionFrom, GatherFrom,
         LiteralKeysFrom;
    KindKept(f, n);
    ItemsKept(f, n);
    GatherFromIsUnion(f, n, 0, k);
    if f.s[n] == f.s0[n] || k !in UnitedKeys(f.s0, f.r0, n) {
      OwnGatheredIsLiteral(f, n, k);
    } else {
      assert Rewritten(f, n) by { assert SameShape(f.s0[n], f.s[n]); }
      assert United(f, n, k);
    }
  }

  lemma {:induction false} GatherFromIsUnion(f: Run, n: Id, j: nat, k: string)
    requires Fixed(f) && Settled(f, n) && f.s[n].Mapping?
    requires j <= |Items(f.s0, f.r0, n)|
    ensures |Items(f.s, f.r, n)| == |Items(f.s0, f.r0, n)|
    ensures GatherTreesFrom(f.s, f.r, n, j, k) == UnionFrom(f.s0, f.r0, n, j, k)
    ensures GatherFrom(f.s, f.r, n, j, k) != [] <==> k in LiteralKeysFrom(f.s0, f.r0, n, j)
    decreases f.r0[n], 0, |Items(f.s0, f.r0, n)| - j
  {
    hide EntryMap, Gather, GatherTrees, Union, LiteralKeys, Shallow, Items, Ranked, Fixed, Framed;
    Basics(f);
    ItemsKept(f, n);
    if j < |Items(f.s0, f.r0, n)| {
      GatherFromIsUnion(f, n, j + 1, k);
      if Aliased(f.s0, Items(f.s0, f.r0, n)[j]) {
        GatherItemIsUnion(f, n, j, k);
      }
    }
  }

  lemma {:induction false} GatherItemIsUnion(f: Run, n: Id, j: nat, k: string)
    requires Fixed(f) && Settled(f, n)
    requires j < |Items(f.s0, f.r0, n)| && Aliased(f.s0, Items(f.s0, f.r0, n)[j])
    ensures var t := f.s0[Items(f.s0, f.r0, n)[j]].target;
            && t in f.s0 && t in f.s && f.s[t].Mapping?
            && GatherTrees(f.s, f.r, t, k) == Union(f.s0, f.r0, t, k)
            && (Gather(f.s, f.r, t, k) != [] <==> k in LiteralKeys(f.s0, f.r0, t))
    decreases f.r0[n], 0, 0
  {
    hide EntryMap, Gather, GatherTrees, Union, LiteralKeys, Shallow, Items, Below, Rewritten;
    var t := f.s0[Items(f.s0, f.r0, n)[j]].target;
    SettledItems(f, n);
    assert t == Source(f.s0, f.r0, n, j) && t in f.done;
    GatherIsUnion(f, t, k);
  }
}
