/** The whole of what the comments of the rewriting promise, and documents that keep it. */
module DeepMergePromise {
  import opened YamlNodes
  import opened DeepMergeMeaning
  import opened DeepMergeReading
  import opened DeepMergeUnions

  /** Decoding with deep merges: at every level, a key that the decoder finds a mapping for is the union of
      its values over everything merged, and any other key has the value the decoder finds. */
  ghost function Promise(s: Store, r: Rank, x: Id): (t: Tree)
    requires Ranked(s, r) && x in s
    ensures s[x].Mapping? ==> t == Dict(PromiseDict(s, r, x))
    decreases r[x], 5
  {
    assert Below(s, r, x, s[x]);
    match s[x]
    case Scalar(text) => Leaf(text)
    case Alias(target) => assert Children(s[x])[0] == target; Promise(s, r, target)
    case Mapping(_) => Dict(PromiseDict(s, r, x))
    case _ => List(PromiseList(s, r, x))
  }

  ghost function PromiseList(s: Store, r: Rank, x: Id): (ts: seq<Tree>)
    requires Ranked(s, r) && x in s
    ensures |ts| == |Children(s[x])|
    decreases r[x], 4
  {
    assert Below(s, r, x, s[x]);
    seq(|Children(s[x])|, i requires 0 <= i < |Children(s[x])| => Promise(s, r, Children(s[x])[i]))
  }

  ghost function PromiseDict(s: Store, r: Rank, n: Id): (d: map<string, Tree>)
    requires Ranked(s, r) && n in s && s[n].Mapping?
    ensures d.Keys == ShallowDict(s, r, n).Keys
    decreases r[n], 3
  {
    map k | k in ShallowDict(s, r, n) ::
      if ShallowDict(s, r, n)[k].Dict? then Dict(PromiseUnion(s, r, n, k)) else Promise(s, r, ValueOf(s, r, n, k))
  }

  ghost function PromiseUnion(s: Store, r: Rank, n: Id, k: string): map<string, Tree>
    requires Ranked(s, r) && n in s && s[n].Mapping?
    decreases r[n], 2
  {
    PromiseUnionFrom(s, r, n, 0, k) + PromiseValue(s, r, n, k)
  }

  ghost function PromiseValue(s: Store, r: Rank, n: Id, k: string): map<string, Tree>
    requires Ranked(s, r) && n in s && s[n].Mapping?
    decreases r[n], 1
  {
    if k in OwnMap(s[n]) then
      ChildOf(s, r, n, k);
      var v := Meant(s, r, OwnMap(s[n])[k]);
      if s[v].Mapping? then PromiseDict(s, r, v) else map[]
    else map[]
  }

  ghost function PromiseUnionFrom(s: Store, r: Rank, n: Id, j: nat, k: string): map<string, Tree>
    requires Ranked(s, r) && n in s && s[n].Mapping? && j <= |Items(s, r, n)|
    decreases r[n], 1, |Items(s, r, n)| - j
  {
    if j == |Items(s, r, n)| then map[]
    else
      var t := Source(s, r, n, j);
      PromiseUnionFrom(s, r, n, j + 1, k) + (if s[t].Mapping? then PromiseUnion(s, r, t, k) else map[])
  }

  // ---------- Documents that keep the promise ----------

  /** Nothing is lost or changed at a key. */
  ghost predicate KeepsKey(s: Store, r: Rank, n: Id, k: string)
    requires Ranked(s, r) && n in s && s[n].Mapping? && k in ShallowDict(s, r, n)
  {
    if ShallowDict(s, r, n)[k].Dict? then OthersAgree(ValueParts(s, r, n, k), Reading(s, r, n, k))
    else Untouched(s, r, n, k)
  }

  ghost predicate KeepsAll(s: Store, r: Rank)
    requires Ranked(s, r)
  {
    forall n, k | n in s && s[n].Mapping? && k in ShallowDict(s, r, n) :: KeepsKey(s, r, n, k)
  }

  /** At such a key the deep meaning is the union, or the value the decoder finds. */
  lemma KeptKey(s: Store, r: Rank, n: Id, k: string)
    requires Ranked(s, r) && n in s && s[n].Mapping? && k in ShallowDict(s, r, n) && KeepsKey(s, r, n, k)
    ensures k in DeepDict(s, r, n)
    ensures DeepDict(s, r, n)[k]
         == if ShallowDict(s, r, n)[k].Dict? then Dict(AllUnion(s, r, n, k)) else Deep(s, r, ValueOf(s, r, n, k))
  {
    hide ShallowDict, DeepDict, Deep, AllUnion, Untouched, OthersAgree, ReadsParts, ValueParts, Late, FirstWins, Taken;
    if ShallowDict(s, r, n)[k].Dict? {
      DeepIsReading(s, r, n, k);
      ValuePartsAre(s, r, n, k);
      TakenReads(ValueParts(s, r, n, k), Late(s, r, n, k));
      ReadsAllIff(ValueParts(s, r, n, k), Reading(s, r, n, k));
    } else {
      UntouchedReads(s, r, n, k);
    }
  }

  /** Conversely, such a meaning is that of a key where nothing is lost. */
  lemma KeptKeyOnly(s: Store, r: Rank, n: Id, k: string)
    requires Ranked(s, r) && n in s && s[n].Mapping? && k in ShallowDict(s, r, n) && k in DeepDict(s, r, n)
    requires DeepDict(s, r, n)[k]
          == if ShallowDict(s, r, n)[k].Dict? then Dict(AllUnion(s, r, n, k)) else Deep(s, r, ValueOf(s, r, n, k))
    ensures KeepsKey(s, r, n, k)
  {
    hide ShallowDict, DeepDict, Deep, Shallow, AllUnion, Untouched, OthersAgree, ReadsParts, ValueParts, Late,
         FirstWins, Taken;
    if ShallowDict(s, r, n)[k].Dict? {
      DeepIsReading(s, r, n, k);
      ValuePartsAre(s, r, n, k);
      TakenReads(ValueParts(s, r, n, k), Late(s, r, n, k));
      ReadsAllIff(ValueParts(s, r, n, k), Reading(s, r, n, k));
    } else {
      UntouchedReads(s, r, n, k);
      SameKinds(s, r, ValueOf(s, r, n, k));
    }
  }

  /** Nodes of lower rank have their promised meaning. */
  ghost predicate AgreeBelow(s: Store, r: Rank, b: nat)
    requires Ranked(s, r)
  {
    forall x | x in s && r[x] < b :: Deep(s, r, x) == Promise(s, r, x)
  }

  /** Then so do unions. */
  lemma {:induction false} UnionIsPromise(s: Store, r: Rank, n: Id, k: string)
    requires Ranked(s, r) && n in s && s[n].Mapping? && AgreeBelow(s, r, r[n])
    ensures AllUnion(s, r, n, k) == PromiseUnion(s, r, n, k)
    decreases r[n], 1
  {
    hide AllUnionFrom, PromiseUnionFrom, DeepDict, PromiseDict, EntryMap, Shallow;
    UnionFromIsPromise(s, r, n, 0, k);
    if k in OwnMap(s[n]) {
      ChildOf(s, r, n, k);
      var v := Meant(s, r, OwnMap(s[n])[k]);
      assert Deep(s, r, v) == Promise(s, r, v);
    }
  }

  lemma {:induction false} UnionFromIsPromise(s: Store, r: Rank, n: Id, j: nat, k: string)
    requires Ranked(s, r) && n in s && s[n].Mapping? && j <= |Items(s, r, n)| && AgreeBelow(s, r, r[n])
    ensures AllUnionFrom(s, r, n, j, k) == PromiseUnionFrom(s, r, n, j, k)
    decreases r[n], 0, |Items(s, r, n)| - j
  {
    hide AllUnion, PromiseUnion, Items, Deep, Promise;
    if j < |Items(s, r, n)| {
      UnionFromIsPromise(s, r, n, j + 1, k);
      var t := Source(s, r, n, j);
      if s[t].Mapping? { UnionIsPromise(s, r, t, k); }
    }
  }

  /** A mapping whose keys lose nothing has its promised meaning, and only such a mapping. */
  lemma DictIsPromiseIff(s: Store, r: Rank, n: Id)
    requires Ranked(s, r) && n in s && s[n].Mapping? && AgreeBelow(s, r, r[n])
    ensures DeepDict(s, r, n) == PromiseDict(s, r, n) <==> forall k | k in ShallowDict(s, r, n) :: KeepsKey(s, r, n, k)
  {
    hide Deep, Promise, AllUnion, PromiseUnion, DeepDict, ShallowDict, KeepsKey, Below;
    DeepKeys(s, r, n);
    forall k | k in ShallowDict(s, r, n)
      ensures k in DeepDict(s, r, n) && (DeepDict(s, r, n)[k] == PromiseDict(s, r, n)[k] <==> KeepsKey(s, r, n, k))
    {
      KeyIsPromiseIff(s, r, n, k);
    }
  }

  lemma KeyIsPromiseIff(s: Store, r: Rank, n: Id, k: string)
    requires Ranked(s, r) && n in s && s[n].Mapping? && AgreeBelow(s, r, r[n]) && k in ShallowDict(s, r, n)
    ensures k in DeepDict(s, r, n)
    ensures DeepDict(s, r, n)[k] == PromiseDict(s, r, n)[k] <==> KeepsKey(s, r, n, k)
  {
    hide Deep, Promise, AllUnion, PromiseUnion, DeepDict, ShallowDict, KeepsKey, Below;
    DeepKeys(s, r, n);
    UnionIsPromise(s, r, n, k);
    if KeepsKey(s, r, n, k) { KeptKey(s, r, n, k); }
    if DeepDict(s, r, n)[k] == PromiseDict(s, r, n)[k] { KeptKeyOnly(s, r, n, k); }
  }

  lemma NodeIsPromise(s: Store, r: Rank, x: Id)
    requires Ranked(s, r) && KeepsAll(s, r) && x in s && AgreeBelow(s, r, r[x])
    ensures Deep(s, r, x) == Promise(s, r, x)
  {
    hide DeepDict, PromiseDict, ShallowDict, KeepsKey;
    assert Below(s, r, x, s[x]);
    if s[x].Mapping? {
      DictIsPromiseIff(s, r, x);
    } else if s[x].Alias? {
      assert Children(s[x])[0] == s[x].target;
    } else {
      assert forall i | 0 <= i < |Children(s[x])| :: Deep(s, r, Children(s[x])[i]) == Promise(s, r, Children(s[x])[i]);
      assert DeepList(s, r, x) == PromiseList(s, r, x);
    }
  }

  lemma {:induction false} AgreeUpTo(s: Store, r: Rank, b: nat)
    requires Ranked(s, r) && KeepsAll(s, r)
    ensures AgreeBelow(s, r, b)
  {
    hide Deep, Promise, KeepsAll;
    if b > 0 {
      AgreeUpTo(s, r, b - 1);
      forall x | x in s && r[x] < b ensures Deep(s, r, x) == Promise(s, r, x) {
        if r[x] == b - 1 { NodeIsPromise(s, r, x); }
      }
    }
  }

  /** Every node has its promised meaning exactly when nothing is lost at any key. */
  lemma DeepIsPromiseIff(s: Store, r: Rank)
    requires Ranked(s, r)
    ensures (forall x | x in s :: Deep(s, r, x) == Promise(s, r, x)) <==> KeepsAll(s, r)
  {
    hide KeepsKey, DeepDict, PromiseDict, ShallowDict, Below;
    if KeepsAll(s, r) {
      forall x | x in s ensures Deep(s, r, x) == Promise(s, r, x) {
        AgreeUpTo(s, r, r[x] + 1);
      }
    } else {
      var n, k :| n in s && s[n].Mapping? && k in ShallowDict(s, r, n) && !KeepsKey(s, r, n, k);
      if forall x | x in s :: Deep(s, r, x) == Promise(s, r, x) {
        DictIsPromiseIff(s, r, n);
        assert Deep(s, r, n) == Promise(s, r, n);
      }
    }
  }

  /** A fixed document reads at every node what is promised, exactly when nothing is lost at any key. */
  lemma PromiseKeptIff(f: Run)
    requires Fixed(f) && f.s0.Keys <= f.done
    ensures (forall x | x in f.s0 :: x in f.s && Shallow(f.s, f.r, x) == Promise(f.s0, f.r0, x)) <==>
              KeepsAll(f.s0, f.r0)
  {
    hide Shallow, Deep, Promise, KeepsAll, Rewritten;
    DeepIsPromiseIff(f.s0, f.r0);
  }

  /** A document in which nothing is lost at any key reads, once fixed, what is promised. */
  lemma PromiseKept(f: Run, x: Id)
    requires Fixed(f) && x in f.s0 && x in f.done && KeepsAll(f.s0, f.r0)
    ensures x in f.s && Shallow(f.s, f.r, x) == Promise(f.s0, f.r0, x)
  {
    hide Shallow, Deep, Promise, KeepsAll, Rewritten;
    DeepIsPromiseIff(f.s0, f.r0);
  }
}
