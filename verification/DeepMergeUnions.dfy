/** What the comments of the rewriting promise for a key whose value is a mapping: the union of all its
    values over the mapping and everything it merges. The values are taken apart by whether the rewriting
    collects them, which tells exactly when the fixed document reads that union. */
module DeepMergeUnions {
  import opened YamlNodes
  import opened DeepMergeMeaning
  import opened DeepMergeReading

  // ---------- The promised union ----------

  /** The node a value stands for, aliases followed. */
  ghost function Meant(s: Store, r: Rank, x: Id): (v: Id)
    requires Ranked(s, r) && x in s
    ensures v in s && r[v] <= r[x] && Deep(s, r, v) == Deep(s, r, x) && Shallow(s, r, v) == Shallow(s, r, x)
    ensures s[v].Mapping? <==> Shallow(s, r, x).Dict?
    decreases r[x]
  {
    if s[x].Alias? then
      assert Below(s, r, x, s[x]) && Children(s[x])[0] == s[x].target;
      Meant(s, r, s[x].target)
    else x
  }

  /** The mapping a mapping has for a key itself, written there or through an alias. */
  ghost function OwnValue(s: Store, r: Rank, n: Id, k: string): map<string, Tree>
    requires Ranked(s, r) && n in s && s[n].Mapping?
  {
    if k in OwnMap(s[n]) then
      ChildOf(s, r, n, k);
      var v := Meant(s, r, OwnMap(s[n])[k]);
      if s[v].Mapping? then DeepDict(s, r, v) else map[]
    else map[]
  }

  /** The union of a key over a mapping and, depth first, everything it merges; the first occurrence of a
      sub-key wins. */
  ghost function AllUnion(s: Store, r: Rank, n: Id, k: string): map<string, Tree>
    requires Ranked(s, r) && n in s && s[n].Mapping?
    decreases r[n], 1
  {
    AllUnionFrom(s, r, n, 0, k) + OwnValue(s, r, n, k)
  }

  ghost function AllUnionFrom(s: Store, r: Rank, n: Id, j: nat, k: string): map<string, Tree>
    requires Ranked(s, r) && n in s && s[n].Mapping? && j <= |Items(s, r, n)|
    decreases r[n], 0, |Items(s, r, n)| - j
  {
    if j == |Items(s, r, n)| then map[]
    else
      var t := Source(s, r, n, j);
      AllUnionFrom(s, r, n, j + 1, k) + (if s[t].Mapping? then AllUnion(s, r, t, k) else map[])
  }

  // ---------- Its parts ----------

  /** A part of a value is collected, or not: it is merged in place, its value is an alias, it is read
      through a merge key of the value, or the key is not united and the part comes after the value read. */
  datatype How = Collected | InPlace | AliasValue | Inherited | PassedOver

  datatype Part = Part(dict: map<string, Tree>, how: How)

  ghost function FirstWins(ps: seq<Part>): map<string, Tree> {
    if ps == [] then map[] else FirstWins(ps[1..]) + ps[0].dict
  }

  /** The collected parts. */
  ghost function Taken(ps: seq<Part>): seq<Part> {
    if ps == [] then [] else (if ps[0].how.Collected? then [ps[0]] else []) + Taken(ps[1..])
  }

  ghost function Passed(ps: seq<Part>): seq<Part> {
    if ps == [] then [] else [ps[0].(how := PassedOver)] + Passed(ps[1..])
  }

  lemma Cons(p: Part, ps: seq<Part>)
    ensures FirstWins([p] + ps) == FirstWins(ps) + p.dict
    ensures Taken([p] + ps) == (if p.how.Collected? then [p] + Taken(ps) else Taken(ps))
    ensures FirstWins(Taken([p] + ps)) == FirstWins(Taken(ps)) + (if p.how.Collected? then p.dict else map[])
  {
    assert ([p] + ps)[1..] == ps;
    if p.how.Collected? { assert ([p] + Taken(ps))[1..] == Taken(ps); }
  }

  lemma {:induction false} Concat(a: seq<Part>, b: seq<Part>)
    ensures FirstWins(a + b) == FirstWins(b) + FirstWins(a)
    ensures Taken(a + b) == Taken(a) + Taken(b)
  {
    if a == [] {
      assert a + b == b;
    } else {
      hide FirstWins, Taken;
      assert a == [a[0]] + a[1..] && a + b == [a[0]] + (a[1..] + b);
      Cons(a[0], a[1..]);
      Cons(a[0], a[1..] + b);
      Concat(a[1..], b);
      PlusAssociates(FirstWins(b), FirstWins(a[1..]), a[0].dict);
    }
  }

  lemma PlusAssociates(a: map<string, Tree>, b: map<string, Tree>, c: map<string, Tree>)
    ensures a + b + c == a + (b + c)
  {
    var x, y := a + b + c, a + (b + c);
    assert x.Keys == y.Keys;
    assert forall k | k in x :: x[k] == y[k];
  }

  lemma {:induction false} PassedParts(ps: seq<Part>)
    ensures FirstWins(Passed(ps)) == FirstWins(ps) && Taken(Passed(ps)) == []
  {
    if ps != [] {
      PassedParts(ps[1..]);
      assert Passed(ps)[1..] == Passed(ps[1..]);
    }
  }

  /** The part of a mapping's own value; how says whether the mapping is reached through aliases only. */
  ghost function OwnParts(s: Store, r: Rank, n: Id, k: string, how: How): seq<Part>
    requires Ranked(s, r) && n in s && s[n].Mapping?
  {
    if Literal(s, n, k) then
      ChildOf(s, r, n, k);
      var v := OwnMap(s[n])[k];
      [Part(Explicit(s, r, v), how), Part(DeepFrom(s, r, v, 0), Inherited)]
    else [Part(OwnValue(s, r, n, k), AliasValue)]
  }

  ghost function Parts(s: Store, r: Rank, n: Id, k: string, how: How): seq<Part>
    requires Ranked(s, r) && n in s && s[n].Mapping?
    decreases r[n], 1
  {
    OwnParts(s, r, n, k, how) + PartsFrom(s, r, n, 0, k, how)
  }

  ghost function PartsFrom(s: Store, r: Rank, n: Id, j: nat, k: string, how: How): seq<Part>
    requires Ranked(s, r) && n in s && s[n].Mapping? && j <= |Items(s, r, n)|
    decreases r[n], 0, |Items(s, r, n)| - j
  {
    if j == |Items(s, r, n)| then []
    else
      var t := Source(s, r, n, j);
      (if s[t].Mapping? then Parts(s, r, t, k, if Aliased(s, Items(s, r, n)[j]) then how else InPlace) else [])
      + PartsFrom(s, r, n, j + 1, k, how)
  }

  lemma OwnPartsAre(s: Store, r: Rank, n: Id, k: string, how: How)
    requires Ranked(s, r) && n in s && s[n].Mapping?
    ensures FirstWins(OwnParts(s, r, n, k, how)) == OwnValue(s, r, n, k)
    ensures FirstWins(Taken(OwnParts(s, r, n, k, how))) == if how.Collected? then OwnLiteral(s, r, n, k) else map[]
  {
    hide Explicit, DeepFrom, EntryMap, Items, Shallow, Deep;
    var ps := OwnParts(s, r, n, k, how);
    OnePart(ps[|ps| - 1]);
    if Literal(s, n, k) {
      ChildOf(s, r, n, k);
      assert ps == [ps[0]] + [ps[1]];
      OnePart(ps[0]);
      Concat([ps[0]], [ps[1]]);
    } else {
      assert ps == [ps[0]];
    }
  }

  lemma OnePart(p: Part)
    ensures FirstWins([p]) == p.dict && Taken([p]) == if p.how.Collected? then [p] else []
  {
    assert [p][1..] == [];
  }

  /** The parts make up the promised union, and the collected ones what is collected. */
  lemma {:induction false} PartsAre(s: Store, r: Rank, n: Id, k: string, how: How)
    requires Ranked(s, r) && n in s && s[n].Mapping?
    ensures FirstWins(Parts(s, r, n, k, how)) == AllUnion(s, r, n, k)
    ensures FirstWins(Taken(Parts(s, r, n, k, how))) == if how.Collected? then Union(s, r, n, k) else map[]
    decreases r[n], 1
  {
    hide OwnParts, OwnLiteral, OwnValue, FirstWins, Taken, PartsFrom, AllUnionFrom, UnionFrom, EntryMap;
    OwnPartsAre(s, r, n, k, how);
    PartsFromAre(s, r, n, 0, k, how);
    Concat(OwnParts(s, r, n, k, how), PartsFrom(s, r, n, 0, k, how));
    Concat(Taken(OwnParts(s, r, n, k, how)), Taken(PartsFrom(s, r, n, 0, k, how)));
  }

  lemma {:induction false} PartsFromAre(s: Store, r: Rank, n: Id, j: nat, k: string, how: How)
    requires Ranked(s, r) && n in s && s[n].Mapping? && j <= |Items(s, r, n)|
    ensures FirstWins(PartsFrom(s, r, n, j, k, how)) == AllUnionFrom(s, r, n, j, k)
    ensures FirstWins(Taken(PartsFrom(s, r, n, j, k, how))) == if how.Collected? then UnionFrom(s, r, n, j, k)
            else map[]
    decreases r[n], 0, |Items(s, r, n)| - j
  {
    hide Parts, AllUnion, Union, EntryMap, Items;
    if j < |Items(s, r, n)| {
      PartsFromAre(s, r, n, j + 1, k, how);
      var i, t := Items(s, r, n)[j], Source(s, r, n, j);
      var how' := if Aliased(s, i) then how else InPlace;
      var first := if s[t].Mapping? then Parts(s, r, t, k, how') else [];
      if s[t].Mapping? { PartsAre(s, r, t, k, how'); }
      Concat(first, PartsFrom(s, r, n, j + 1, k, how));
      Concat(Taken(first), Taken(PartsFrom(s, r, n, j + 1, k, how)));
    }
  }

  // ---------- The parts as they are read ----------

  /** The parts of the value of a key, marked by what happens to the key in this mapping: it is united, or
      the own value is read, or that of the first source. */
  ghost function ValueParts(s: Store, r: Rank, n: Id, k: string): seq<Part>
    requires Ranked(s, r) && n in s && s[n].Mapping? && k in ShallowDict(s, r, n)
    decreases r[n]
  {
    if k in UnitedKeys(s, r, n) then Parts(s, r, n, k, Collected)
    else if k in OwnMap(s[n]) then [Part(OwnValue(s, r, n, k), Collected)] + Passed(PartsFrom(s, r, n, 0, k, Collected))
    else
      ValueParts(s, r, Next(s, r, n, k), k)
      + Passed(PartsFrom(s, r, n, NextIndex(s, r, n, k) + 1, k, Collected))
  }

  lemma {:induction false} ValuePartsAre(s: Store, r: Rank, n: Id, k: string)
    requires Ranked(s, r) && n in s && s[n].Mapping? && k in ShallowDict(s, r, n)
    ensures FirstWins(ValueParts(s, r, n, k)) == AllUnion(s, r, n, k)
    decreases r[n]
  {
    hide Parts, PartsFrom, AllUnionFrom, OwnValue, UnitedKeys, EntryMap, Items, ShallowDict, FirstWins, Taken, Passed;
    if k in UnitedKeys(s, r, n) {
      PartsAre(s, r, n, k, Collected);
    } else if k in OwnMap(s[n]) {
      var rest := PartsFrom(s, r, n, 0, k, Collected);
      OnePart(Part(OwnValue(s, r, n, k), Collected));
      PassedParts(rest);
      PartsFromAre(s, r, n, 0, k, Collected);
      Concat([Part(OwnValue(s, r, n, k), Collected)], Passed(rest));
    } else {
      NextValueParts(s, r, n, k);
    }
  }

  lemma {:induction false} NextValueParts(s: Store, r: Rank, n: Id, k: string)
    requires Ranked(s, r) && n in s && s[n].Mapping? && k in ShallowDict(s, r, n)
    requires k !in UnitedKeys(s, r, n) && k !in OwnMap(s[n])
    ensures FirstWins(ValueParts(s, r, n, k)) == AllUnion(s, r, n, k)
    decreases r[n], 0
  {
    hide Parts, PartsFrom, UnitedKeys, EntryMap, Items, ShallowDict, FirstWins, Taken, Passed, AllUnion, AllUnionFrom;
    var m := NextIndex(s, r, n, k);
    var rest := PartsFrom(s, r, n, m + 1, k, Collected);
    ValuePartsAre(s, r, Next(s, r, n, k), k);
    PassedParts(rest);
    PartsFromAre(s, r, n, m + 1, k, Collected);
    Concat(ValueParts(s, r, Next(s, r, n, k), k), Passed(rest));
    SkipSources(s, r, n, 0, k);
    NoOwnValue(s, r, n, k);
    AllUnionStep(s, r, n, m, k);
  }

  lemma NoOwnValue(s: Store, r: Rank, n: Id, k: string)
    requires Ranked(s, r) && n in s && s[n].Mapping? && k !in OwnMap(s[n])
    ensures AllUnion(s, r, n, k) == AllUnionFrom(s, r, n, 0, k)
  {
    hide AllUnionFrom;
  }

  lemma AllUnionStep(s: Store, r: Rank, n: Id, j: nat, k: string)
    requires Ranked(s, r) && n in s && s[n].Mapping? && j < |Items(s, r, n)| && s[Source(s, r, n, j)].Mapping?
    ensures AllUnionFrom(s, r, n, j, k) == AllUnionFrom(s, r, n, j + 1, k) + AllUnion(s, r, Source(s, r, n, j), k)
  {
    hide AllUnion, Items;
  }

  /** Sources without the key add nothing. */
  lemma {:induction false} SkipSources(s: Store, r: Rank, n: Id, j: nat, k: string)
    requires Ranked(s, r) && n in s && s[n].Mapping? && j <= |Items(s, r, n)| && k in ShallowFrom(s, r, n, j)
    ensures AllUnionFrom(s, r, n, j, k) == AllUnionFrom(s, r, n, FirstSource(s, r, n, j, k), k)
    decreases |Items(s, r, n)| - j
  {
    hide AllUnion, ShallowDict, Items;
    var t := Source(s, r, n, j);
    if !(s[t].Mapping? && k in ShallowDict(s, r, t)) {
      if s[t].Mapping? { NoKeyNoUnion(s, r, t, k); }
      SkipSources(s, r, n, j + 1, k);
    }
  }

  lemma {:induction false} NoKeyNoUnion(s: Store, r: Rank, n: Id, k: string)
    requires Ranked(s, r) && n in s && s[n].Mapping? && k !in ShallowDict(s, r, n)
    ensures AllUnion(s, r, n, k) == map[]
    decreases r[n], 1
  {
    hide EntryMap, Items, Shallow, ShallowFrom, AllUnionFrom;
    NoKeyNoUnionFrom(s, r, n, 0, k);
  }

  lemma {:induction false} NoKeyNoUnionFrom(s: Store, r: Rank, n: Id, j: nat, k: string)
    requires Ranked(s, r) && n in s && s[n].Mapping? && j <= |Items(s, r, n)| && k !in ShallowFrom(s, r, n, j)
    ensures AllUnionFrom(s, r, n, j, k) == map[]
    decreases r[n], 0, |Items(s, r, n)| - j
  {
    hide EntryMap, Items, ShallowDict, AllUnion;
    if j < |Items(s, r, n)| {
      NoKeyNoUnionFrom(s, r, n, j + 1, k);
      var t := Source(s, r, n, j);
      if s[t].Mapping? { NoKeyNoUnion(s, r, t, k); }
    }
  }

  // ---------- Which part decides a sub-key ----------

  /** The i-th part is the first to have the sub-key. */
  ghost predicate Decides(ps: seq<Part>, i: nat, sub: string) {
    i < |ps| && sub in ps[i].dict && forall m | 0 <= m < i :: sub !in ps[m].dict
  }

  lemma {:induction false} Decided(ps: seq<Part>, i: nat, sub: string)
    requires Decides(ps, i, sub)
    ensures sub in FirstWins(ps) && FirstWins(ps)[sub] == ps[i].dict[sub]
    ensures ps[i].how.Collected? ==> sub in FirstWins(Taken(ps)) && FirstWins(Taken(ps))[sub] == ps[i].dict[sub]
  {
    hide FirstWins, Taken;
    assert ps == [ps[0]] + ps[1..];
    Cons(ps[0], ps[1..]);
    if i > 0 { Decided(ps[1..], i - 1, sub); }
  }

  lemma {:induction false} Decider(ps: seq<Part>, sub: string) returns (i: nat)
    requires sub in FirstWins(ps)
    ensures Decides(ps, i, sub)
  {
    if sub in ps[0].dict {
      i := 0;
    } else {
      i := Decider(ps[1..], sub);
      i := i + 1;
      assert forall m | 0 <= m < i :: m == 0 || ps[m] == ps[1..][m - 1];
    }
  }

  lemma {:induction false} TakenKeys(ps: seq<Part>)
    ensures FirstWins(Taken(ps)).Keys <= FirstWins(ps).Keys
  {
    if ps != [] {
      hide FirstWins, Taken;
      TakenKeys(ps[1..]);
      assert ps == [ps[0]] + ps[1..];
      Cons(ps[0], ps[1..]);
    }
  }

  // ---------- What is read ----------

  /** Nothing beyond the parts is read, and what a collected part decides is. */
  ghost predicate ReadsParts(ps: seq<Part>, d: map<string, Tree>) {
    && d.Keys <= FirstWins(ps).Keys
    && forall i: nat, sub | Decides(ps, i, sub) && ps[i].how.Collected? :: sub in d && d[sub] == ps[i].dict[sub]
  }

  lemma TakenReads(ps: seq<Part>, late: map<string, Tree>)
    requires late.Keys <= FirstWins(ps).Keys
    ensures ReadsParts(ps, late + FirstWins(Taken(ps)))
  {
    hide FirstWins, Taken;
    TakenKeys(ps);
    forall i: nat, sub | Decides(ps, i, sub) && ps[i].how.Collected?
      ensures sub in FirstWins(Taken(ps)) && FirstWins(Taken(ps))[sub] == ps[i].dict[sub]
    {
      Decided(ps, i, sub);
    }
  }

  /** What a carried merge key reads is part of the union as well. */
  lemma {:induction false} CarriedInUnion(s: Store, r: Rank, n: Id, k: string)
    requires Ranked(s, r) && n in s && s[n].Mapping?
    ensures Carried(s, r, n, k).Keys <= AllUnion(s, r, n, k).Keys
    decreases r[n], 1
  {
    hide EntryMap, Items, CarrierFrom, AllUnionFrom, DeepFrom, Explicit, Deep;
    if Literal(s, n, k) && HasMerge(s[OwnMap(s[n])[k]]) {
      ChildOf(s, r, n, k);
      assert OwnValue(s, r, n, k) == DeepDict(s, r, OwnMap(s[n])[k]);
    } else {
      CarriedFromInUnion(s, r, n, 0, k);
    }
  }

  lemma {:induction false} CarriedFromInUnion(s: Store, r: Rank, n: Id, j: nat, k: string)
    requires Ranked(s, r) && n in s && s[n].Mapping? && j <= |Items(s, r, n)|
    ensures var c := CarrierFrom(s, r, n, j, k);
            c.By? ==> DeepFrom(s, r, c.mapping, 0).Keys <= AllUnionFrom(s, r, n, j, k).Keys
    decreases r[n], 0, |Items(s, r, n)| - j
  {
    hide EntryMap, Items, CarrierOf, AllUnion, DeepFrom;
    if j < |Items(s, r, n)| {
      CarriedFromInUnion(s, r, n, j + 1, k);
      var i := Items(s, r, n)[j];
      if Aliased(s, i) {
        assert Source(s, r, n, j) == s[i].target;
        CarriedInUnion(s, r, s[i].target, k);
      }
    }
  }

  /** What is read through the merge key carried into the value, where the key is united. */
  ghost function Late(s: Store, r: Rank, n: Id, k: string): map<string, Tree>
    requires Ranked(s, r) && n in s && s[n].Mapping? && k in ShallowDict(s, r, n)
    decreases r[n]
  {
    if k in UnitedKeys(s, r, n) then Carried(s, r, n, k)
    else if k in OwnMap(s[n]) then map[]
    else Late(s, r, Next(s, r, n, k), k)
  }

  /** The collected parts, the first one winning, and what is read late. */
  ghost function Reading(s: Store, r: Rank, n: Id, k: string): map<string, Tree>
    requires Ranked(s, r) && n in s && s[n].Mapping? && k in ShallowDict(s, r, n)
  {
    Late(s, r, n, k) + FirstWins(Taken(ValueParts(s, r, n, k)))
  }

  /** A key that the decoder finds a mapping for has that for its deep meaning. */
  lemma {:induction false} DeepIsReading(s: Store, r: Rank, n: Id, k: string)
    requires Ranked(s, r) && n in s && s[n].Mapping? && k in ShallowDict(s, r, n) && ShallowDict(s, r, n)[k].Dict?
    ensures k in DeepDict(s, r, n) && DeepDict(s, r, n)[k] == Dict(Reading(s, r, n, k))
    ensures Late(s, r, n, k).Keys <= FirstWins(ValueParts(s, r, n, k)).Keys
    decreases r[n]
  {
    hide Parts, PartsFrom, AllUnion, UnitedKeys, EntryMap, Items, ShallowDict, DeepDict, FirstWins, Taken, Passed,
         Carried, Union;
    DeepNext(s, r, n, k);
    if k in UnitedKeys(s, r, n) {
      PartsAre(s, r, n, k, Collected);
      CarriedInUnion(s, r, n, k);
    } else if k in OwnMap(s[n]) {
      OwnReading(s, r, n, k);
    } else {
      var t := Next(s, r, n, k);
      DeepIsReading(s, r, t, k);
      var rest := PartsFrom(s, r, n, NextIndex(s, r, n, k) + 1, k, Collected);
      PassedParts(rest);
      Concat(ValueParts(s, r, t, k), Passed(rest));
      assert Taken(ValueParts(s, r, n, k)) == Taken(ValueParts(s, r, t, k));
    }
  }

  lemma OwnReading(s: Store, r: Rank, n: Id, k: string)
    requires Ranked(s, r) && n in s && s[n].Mapping? && k in OwnMap(s[n]) && OwnMap(s[n])[k] in s
    requires k in ShallowDict(s, r, n) && ShallowDict(s, r, n)[k].Dict? && k !in UnitedKeys(s, r, n)
    ensures Deep(s, r, OwnMap(s[n])[k]) == Dict(Reading(s, r, n, k))
  {
    hide PartsFrom, UnitedKeys, EntryMap, Items, ShallowFrom, DeepDict, FirstWins, Taken, Passed;
    var v := Meant(s, r, OwnMap(s[n])[k]);
    assert ShallowDict(s, r, n)[k] == Shallow(s, r, OwnMap(s[n])[k]);
    var p, rest := Part(OwnValue(s, r, n, k), Collected), PartsFrom(s, r, n, 0, k, Collected);
    OnePart(p);
    PassedParts(rest);
    Concat([p], Passed(rest));
    assert Taken(ValueParts(s, r, n, k)) == [p];
    assert Reading(s, r, n, k) == DeepDict(s, r, v);
  }

  // ---------- Exactly when the promised union is read ----------

  /** Every sub-key that a part decides which is not collected is read as that part has it. */
  ghost predicate OthersAgree(ps: seq<Part>, d: map<string, Tree>) {
    forall i: nat, sub | Decides(ps, i, sub) && !ps[i].how.Collected? :: sub in d && d[sub] == ps[i].dict[sub]
  }

  lemma ReadsAllIff(ps: seq<Part>, d: map<string, Tree>)
    requires ReadsParts(ps, d)
    ensures d == FirstWins(ps) <==> OthersAgree(ps, d)
  {
    hide FirstWins;
    if OthersAgree(ps, d) {
      forall sub | sub in FirstWins(ps) ensures sub in d && d[sub] == FirstWins(ps)[sub] {
        var i := Decider(ps, sub);
        Decided(ps, i, sub);
      }
    } else {
      var i: nat, sub :| Decides(ps, i, sub) && !ps[i].how.Collected? && !(sub in d && d[sub] == ps[i].dict[sub]);
      Decided(ps, i, sub);
    }
  }

  /** A key that the decoder finds a mapping for reads, in the fixed document, the union over all that is
      merged exactly when every sub-key decided by a part that is not collected has the same value in the
      first collected part that has it, or in what is read late. */
  lemma AllSourcesIff(f: Run, n: Id, k: string)
    requires Fixed(f) && n in f.done && n in f.s0 && f.s0[n].Mapping?
    requires k in ShallowDict(f.s0, f.r0, n) && ShallowDict(f.s0, f.r0, n)[k].Dict?
    ensures n in f.s && f.s[n].Mapping? && k in ShallowDict(f.s, f.r, n)
    ensures ShallowDict(f.s, f.r, n)[k] == Dict(Reading(f.s0, f.r0, n, k))
    ensures ShallowDict(f.s, f.r, n)[k] == Dict(AllUnion(f.s0, f.r0, n, k)) <==>
            OthersAgree(ValueParts(f.s0, f.r0, n, k), Reading(f.s0, f.r0, n, k))
  {
    hide ShallowDict, DeepDict, AllUnion, ValueParts, OthersAgree, ReadsParts, FirstWins, Taken, Late;
    FixedReads(f, n);
    DeepIsReading(f.s0, f.r0, n, k);
    ValuePartsAre(f.s0, f.r0, n, k);
    TakenReads(ValueParts(f.s0, f.r0, n, k), Late(f.s0, f.r0, n, k));
    ReadsAllIff(ValueParts(f.s0, f.r0, n, k), Reading(f.s0, f.r0, n, k));
  }

  // ---------- A guard ----------

  /** Everything merged for the key is collected: every merge item is an alias, no value of the key is an
      alias of a mapping, and no value reads further keys through a merge key of its own. */
  ghost predicate Gathers(s: Store, r: Rank, n: Id, k: string)
    requires Ranked(s, r) && n in s && s[n].Mapping?
    decreases r[n]
  {
    && (k in OwnMap(s[n]) && OwnMap(s[n])[k] in s ==>
          var v := OwnMap(s[n])[k];
          && (s[v].Alias? ==> !s[Meant(s, r, v)].Mapping?)
          && (s[v].Mapping? ==> DeepFrom(s, r, v, 0).Keys <= Explicit(s, r, v).Keys))
    && forall j | 0 <= j < |Items(s, r, n)| ::
         Aliased(s, Items(s, r, n)[j]) && s[Source(s, r, n, j)].Mapping? && Gathers(s, r, Source(s, r, n, j), k)
  }

  ghost predicate OnlyCollected(ps: seq<Part>) {
    forall i: nat, sub | Decides(ps, i, sub) :: ps[i].how.Collected?
  }

  lemma OnlyCollectedConcat(a: seq<Part>, b: seq<Part>)
    requires OnlyCollected(a) && OnlyCollected(b)
    ensures OnlyCollected(a + b)
  {
    forall i: nat, sub | Decides(a + b, i, sub) ensures (a + b)[i].how.Collected? {
      if i < |a| {
        assert forall m | 0 <= m <= i :: a[m] == (a + b)[m];
        assert Decides(a, i, sub);
      } else {
        assert forall m | 0 <= m < i - |a| :: b[m] == (a + b)[m + |a|];
        assert Decides(b, i - |a|, sub);
      }
    }
  }

  lemma OwnOnlyCollected(s: Store, r: Rank, n: Id, k: string)
    requires Ranked(s, r) && n in s && s[n].Mapping? && Gathers(s, r, n, k)
    ensures OnlyCollected(OwnParts(s, r, n, k, Collected))
  {
    hide EntryMap, Explicit, DeepFrom, Items, Deep, Shallow;
    var ps := OwnParts(s, r, n, k, Collected);
    if k in OwnMap(s[n]) { ChildOf(s, r, n, k); }
    if Literal(s, n, k) {
      assert forall sub | sub in ps[1].dict :: sub in ps[0].dict;
    } else {
      assert ps[0].dict == map[];
    }
  }

  lemma {:induction false} GathersOnlyCollected(s: Store, r: Rank, n: Id, k: string)
    requires Ranked(s, r) && n in s && s[n].Mapping? && Gathers(s, r, n, k)
    ensures OnlyCollected(Parts(s, r, n, k, Collected))
    decreases r[n], 1
  {
    hide OwnParts, PartsFrom, OnlyCollected, EntryMap, Items;
    OwnOnlyCollected(s, r, n, k);
    GathersFromOnlyCollected(s, r, n, 0, k);
    OnlyCollectedConcat(OwnParts(s, r, n, k, Collected), PartsFrom(s, r, n, 0, k, Collected));
  }

  lemma {:induction false} GathersFromOnlyCollected(s: Store, r: Rank, n: Id, j: nat, k: string)
    requires Ranked(s, r) && n in s && s[n].Mapping? && Gathers(s, r, n, k) && j <= |Items(s, r, n)|
    ensures OnlyCollected(PartsFrom(s, r, n, j, k, Collected))
    decreases r[n], 0, |Items(s, r, n)| - j
  {
    hide Parts, EntryMap, Items, OnlyCollected;
    if j < |Items(s, r, n)| {
      GathersFromOnlyCollected(s, r, n, j + 1, k);
      var t := Source(s, r, n, j);
      GathersOnlyCollected(s, r, t, k);
      OnlyCollectedConcat(Parts(s, r, t, k, Collected), PartsFrom(s, r, n, j + 1, k, Collected));
    } else {
      assert OnlyCollected([]) by { NoParts(); }
    }
  }

  lemma NoParts()
    ensures OnlyCollected([])
  {}

  /** Where everything merged for a united key is collected, the union over all that is merged is read. */
  lemma ReadsAllSources(f: Run, n: Id, k: string)
    requires Fixed(f) && n in f.done && n in f.s0 && f.s0[n].Mapping?
    requires k in UnitedKeys(f.s0, f.r0, n) && Gathers(f.s0, f.r0, n, k)
    ensures n in f.s && f.s[n].Mapping? && k in ShallowDict(f.s, f.r, n)
    ensures ShallowDict(f.s, f.r, n)[k] == Dict(AllUnion(f.s0, f.r0, n, k))
  {
    hide ShallowDict, DeepDict, AllUnion, Parts, UnitedKeys, Gathers, ReadsParts, FirstWins, Taken, Union, Carried;
    FixedReads(f, n);
    LiteralKeysAreKeys(f.s0, f.r0, n);
    DeepNext(f.s0, f.r0, n, k);
    var ps := Parts(f.s0, f.r0, n, k, Collected);
    PartsAre(f.s0, f.r0, n, k, Collected);
    CarriedInUnion(f.s0, f.r0, n, k);
    TakenReads(ps, Carried(f.s0, f.r0, n, k));
    GathersOnlyCollected(f.s0, f.r0, n, k);
    ReadsAllIff(ps, UnitedDict(f.s0, f.r0, n, k));
  }
}
