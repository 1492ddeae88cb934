/** The expected-config cache: lookups and sweeps, and what every run of them guarantees. */
module ConfigCache {
  import opened Words
  import opened Values
  import opened ConfigHash
  import opened ExpectedConfigs

  datatype Entry = Entry(result: UnitConfig, used: bool)

  type Bucket = seq<Entry>
  type Entries = map<Word, Bucket>

  /** structEqualsMap on an entry's source. */
  predicate Matches(env: Env, e: Entry, cfg: Config) {
    ValueEquals(env, PStruct(e.result.source), Map(cfg))
  }

  function BucketAt(es: Entries, h: Word): Bucket {
    if h in es then es[h] else []
  }

  /** The first matching position, or the length of the bucket. */
  function Find(env: Env, b: Bucket, cfg: Config): (i: nat)
    ensures i <= |b|
    ensures i < |b| ==> Matches(env, b[i], cfg)
    ensures forall j | 0 <= j < i :: !Matches(env, b[j], cfg)
  {
    if b == [] then 0
    else if Matches(env, b[0], cfg) then 0
    else 1 + Find(env, b[1..], cfg)
  }

  /** One lookup: the new entries and the outcome. */
  ghost function LookupIn(env: Env, es: Entries, cfg: Config, choose: Chooser): (Entries, Field<UnitConfig>)
    requires ValidChooser(choose)
  {
    var h := Hash(env, Map(cfg));
    var b := BucketAt(es, h);
    var i := Find(env, b, cfg);
    if i < |b| then (es[h := b[i := b[i].(used := true)]], Ok(b[i].result))
    else
      match Expected(env, cfg, choose)
      case Err(e) => (es, Err(e))
      case Ok(r) => (es[h := b + [Entry(r, true)]], Ok(r))
  }

  /** The used entries in order, flags cleared. */
  function Keep(b: Bucket): Bucket {
    if b == [] then []
    else if b[|b| - 1].used then Keep(b[..|b| - 1]) + [b[|b| - 1].(used := false)]
    else Keep(b[..|b| - 1])
  }

  function SweepOf(es: Entries): Entries {
    map h | h in es && Keep(es[h]) != [] :: Keep(es[h])
  }

  function Total(es: Entries): nat { |Positions(es)| }

  function Positions(es: Entries): set<(Word, nat)> {
    set h, i | h in es && 0 <= i < |es[h]| :: (h, i)
  }

  /** The compaction of Sweep: entries are read and rewritten in the same backing array. */
  method Compact(a: array<Entry>) returns (k: nat)
    modifies a
    ensures k <= a.Length && a[..k] == Keep(old(a[..]))
  {
    k := 0;
    ghost var before := a[..];
    for i := 0 to a.Length
      invariant k <= i
      invariant a[..k] == Keep(before[..i])
      invariant forall j | i <= j < a.Length :: a[j] == before[j]
    {
      assert before[..i + 1][..i] == before[..i];
      if a[i].used {
        var e := a[i].(used := false);
        a[k] := e;
        k := k + 1;
      }
    }
    assert before[..a.Length] == before;
  }

  class ExpectedConfigCache {
    const env: Env
    var entries: Entries

    constructor (env: Env)
      ensures this.env == env && entries == map[]
    {
      this.env := env;
      entries := map[];
    }

    /** Returns the stored result of a configuration with the same source, or generates and stores one. */
    method ExpectedConfig(cfg: Config, choose: Chooser) returns (r: Field<UnitConfig>)
      requires ValidChooser(choose)
      modifies this
      ensures (entries, r) == LookupIn(env, old(entries), cfg, choose)
    {
      hide Hash, Expected, Matches;
      var h := HashConfigValue(env, Map(cfg));
      var b := BucketAt(entries, h);
      for i := 0 to |b|
        invariant entries == old(entries)
        invariant forall j | 0 <= j < i :: !Matches(env, b[j], cfg)
      {
        if Matches(env, b[i], cfg) {
          entries := entries[h := b[i := b[i].(used := true)]];
          return Ok(b[i].result);
        }
      }
      var result :- ExpectedConfigs.ExpectedConfig(env, cfg, choose);
      entries := entries[h := b + [Entry(result, true)]];
      r := Ok(result);
    }

    /** Drops the entries not used since the previous sweep. */
    method Sweep()
      modifies this
      ensures entries == SweepOf(old(entries))
    {
      var todo := entries.Keys;
      ghost var before := entries;
      while todo != {}
        invariant todo <= before.Keys
        invariant forall h | h in todo :: h in entries && entries[h] == before[h]
        invariant forall h | h !in todo ::
                    (h in entries <==> h in SweepOf(before)) && (h in entries ==> entries[h] == Keep(before[h]))
        decreases |todo|
      {
        var h :| h in todo;
        var b := entries[h];
        var backing := new Entry[|b|](i requires 0 <= i < |b| => b[i]);
        assert backing[..] == b;
        var k := Compact(backing);
        if k == 0 {
          entries := entries - {h};
        } else {
          entries := entries[h := backing[..k]];
        }
        todo := todo - {h};
      }
    }

    /** The number of entries. */
    method Len() returns (n: nat)
      ensures n == Total(entries)
    {
      n := 0;
      var todo := entries.Keys;
      ghost var counted: set<(Word, nat)> := {};
      while todo != {}
        invariant todo <= entries.Keys
        invariant counted == set h, i | h in entries && h !in todo && 0 <= i < |entries[h]| :: (h, i)
        invariant n == |counted|
        decreases |todo|
      {
        var h :| h in todo;
        ghost var row := set i: nat | 0 <= i < |entries[h]| :: (h, i);
        RowSize(h, |entries[h]|);
        assert counted !! row;
        counted := counted + row;
        n := n + |entries[h]|;
        todo := todo - {h};
      }
      assert counted == Positions(entries);
    }
  }

  lemma {:induction false} RowSize(h: Word, n: nat)
    ensures |set i: nat | 0 <= i < n :: (h, i)| == n
  {
    if n > 0 {
      RowSize(h, n - 1);
      assert (set i: nat | 0 <= i < n :: (h, i)) == (set i: nat | 0 <= i < n - 1 :: (h, i)) + {(h, n - 1)};
    }
  }

  // ---------- One lookup, on any configuration ----------

  /** The result was generated from a configuration with this hash. */
  ghost predicate Generated(env: Env, h: Word, r: UnitConfig, cfg: Config, choose: Chooser) {
    ValidChooser(choose) && Hash(env, Map(cfg)) == h && Expected(env, cfg, choose) == Ok(r)
  }

  ghost predicate Stored(env: Env, h: Word, r: UnitConfig) {
    exists cfg, choose :: Generated(env, h, r, cfg, choose)
  }

  ghost predicate Sound(env: Env, es: Entries) {
    forall h, i | h in es && 0 <= i < |es[h]| :: Stored(env, h, es[h][i].result)
  }

  /** A match is a configuration that converts to the stored source. */
  lemma MatchIsConversion(env: Env, h: Word, e: Entry, cfg: Config)
    requires Lawful(env) && Stored(env, h, e.result)
    ensures Matches(env, e, cfg) <==>
            Convertible(env, Map(cfg)) && SameSource(PStruct(e.result.source), Convert(env, Map(cfg)))
  {
    hide Expected, Hash, ValueEquals;
    var cfg0, choose0 :| Generated(env, h, e.result, cfg0, choose0);
    ConvertWellFormed(env, Map(cfg0));
    ValueEqualsIsConversion(env, PStruct(e.result.source), Map(cfg));
  }

  /** The source of a configuration, up to the sign of zeros. */
  ghost predicate SourceFor(env: Env, cfg: Config, source: Struct) {
    && Convertible(env, Map(cfg))
    && (PStruct(source) == Convert(env, Map(cfg)) || SameSource(PStruct(source), Convert(env, Map(cfg))))
    && (NoZeros(Convert(env, Map(cfg))) ==> PStruct(source) == Convert(env, Map(cfg)))
  }

  /** Whatever the configuration and however hashes collide, a successful lookup returns a result
      with the configuration's source (numbers compared as float64 on a hit, which tells apart all but
      the two zeros), and a failing one fails as the uncached generation does and changes nothing. */
  lemma LookupSound(env: Env, es: Entries, cfg: Config, choose: Chooser)
    requires Lawful(env) && Sound(env, es) && ValidChooser(choose)
    ensures var (es', r) := LookupIn(env, es, cfg, choose);
            && Sound(env, es')
            && (r.Ok? ==> SourceFor(env, cfg, r.value.source))
            && (r.Err? ==> es' == es && Expected(env, cfg, choose) == r)
  {
    hide Expected, Hash, Matches;
    var h := Hash(env, Map(cfg));
    var b := BucketAt(es, h);
    var i := Find(env, b, cfg);
    var es': Entries := LookupIn(env, es, cfg, choose).0;
    if i < |b| {
      MatchIsConversion(env, h, b[i], cfg);
      if NoZeros(Convert(env, Map(cfg))) { SameSourceExact(PStruct(b[i].result.source), Convert(env, Map(cfg))); }
    } else if Expected(env, cfg, choose).Ok? {
      assert Generated(env, h, Expected(env, cfg, choose).value, cfg, choose);
    }
    forall g, j | g in es' && 0 <= j < |es'[g]|
      ensures Stored(env, g, es'[g][j].result)
    {
      if g == h && i == |b| && j == |b| {
      } else {
        assert es'[g][j].result == es[g][j].result;
      }
    }
  }

  // ---------- Canonical runs ----------

  ghost predicate CanonicallyStored(env: Env, h: Word, r: UnitConfig) {
    exists cfg, choose :: Generated(env, h, r, cfg, choose) && Canonical(env, Map(cfg))
  }

  predicate Distinct(b: Bucket) {
    forall i, j | 0 <= i < j < |b| :: b[i].result.source != b[j].result.source
  }

  /** No bucket is empty, and no two entries of a bucket share a source. */
  ghost predicate Tidy(env: Env, es: Entries) {
    forall h | h in es ::
      es[h] != [] && Distinct(es[h]) && forall i | 0 <= i < |es[h]| :: CanonicallyStored(env, h, es[h][i].result)
  }

  /** For canonical configurations a match is equality of sources. */
  lemma CanonicalMatch(env: Env, h: Word, e: Entry, cfg: Config)
    requires Lawful(env) && CanonicallyStored(env, h, e.result) && Canonical(env, Map(cfg))
    ensures Matches(env, e, cfg) <==>
            Convertible(env, Map(cfg)) && PStruct(e.result.source) == Convert(env, Map(cfg))
  {
    hide Expected, Hash, Matches;
    var cfg0, choose0 :| Generated(env, h, e.result, cfg0, choose0) && Canonical(env, Map(cfg0));
    MatchIsConversion(env, h, e, cfg);
    ConvertWellFormed(env, Map(cfg0));
    if Convertible(env, Map(cfg)) {
      ConvertWellFormed(env, Map(cfg));
      SameSourceIsEquality(PStruct(e.result.source), Convert(env, Map(cfg)));
    }
  }

  /** A hit returns exactly what generating afresh would. */
  lemma HitIsFresh(env: Env, h: Word, e: Entry, cfg: Config, choose: Chooser)
    requires Lawful(env) && CanonicallyStored(env, h, e.result) && Canonical(env, Map(cfg))
    requires Matches(env, e, cfg) && ValidChooser(choose)
    ensures Expected(env, cfg, choose) == Ok(e.result)
  {
    hide Expected, Hash, Matches;
    var cfg0, choose0 :| Generated(env, h, e.result, cfg0, choose0) && Canonical(env, Map(cfg0));
    CanonicalMatch(env, h, e, cfg);
    SourceDeterminesFields(env, cfg0, cfg, choose0, choose);
  }

  /** No two entries of the cache share a source, even across buckets. */
  lemma SourcesUnique(env: Env, es: Entries, g: Word, i: nat, h: Word, j: nat)
    requires Lawful(env) && Tidy(env, es)
    requires g in es && i < |es[g]| && h in es && j < |es[h]|
    requires es[g][i].result.source == es[h][j].result.source
    ensures g == h && i == j
  {
    hide Expected, Hash;
    var a, c :| Generated(env, g, es[g][i].result, a, c) && Canonical(env, Map(a));
    var b, d :| Generated(env, h, es[h][j].result, b, d) && Canonical(env, Map(b));
    CanonicalNoBytes(env, Map(a));
    CanonicalNoBytes(env, Map(b));
    HashBySource(env, Map(a), Map(b));
  }

  /** The sources of the entries used since the last sweep. */
  ghost function Used(es: Entries): set<Struct> {
    set h, i | h in es && 0 <= i < |es[h]| && es[h][i].used :: es[h][i].result.source
  }

  ghost function Sources(es: Entries): set<Struct> {
    set h, i | h in es && 0 <= i < |es[h]| :: es[h][i].result.source
  }

  /** On canonical configurations a lookup is the uncached generation, and marks its source. */
  lemma LookupRefines(env: Env, es: Entries, cfg: Config, choose: Chooser)
    requires Lawful(env) && Tidy(env, es) && ValidChooser(choose) && Canonical(env, Map(cfg))
    ensures var (es', r) := LookupIn(env, es, cfg, choose);
            && r == Expected(env, cfg, choose)
            && Tidy(env, es')
            && Used(es') == Used(es) + (if r.Ok? then {r.value.source} else {})
  {
    hide Expected, Hash, Matches;
    var h := Hash(env, Map(cfg));
    var b := BucketAt(es, h);
    var i := Find(env, b, cfg);
    var (es', r) := LookupIn(env, es, cfg, choose);
    if i < |b| {
      HitIsFresh(env, h, b[i], cfg, choose);
      TouchBucket(env, es, h, i);
    } else if Expected(env, cfg, choose).Ok? {
      var made := Expected(env, cfg, choose).value;
      assert Generated(env, h, made, cfg, choose);
      forall j | 0 <= j < |b|
        ensures b[j].result.source != made.source
      {
        CanonicalMatch(env, h, b[j], cfg);
      }
      GrowBucket(env, es, h, made);
    }
  }

  lemma TouchBucket(env: Env, es: Entries, h: Word, i: nat)
    requires Tidy(env, es) && h in es && i < |es[h]|
    ensures var es' := es[h := es[h][i := es[h][i].(used := true)]];
            Tidy(env, es') && Used(es') == Used(es) + {es[h][i].result.source}
  {
    hide CanonicallyStored;
    var b := es[h];
    var b' := b[i := b[i].(used := true)];
    assert Distinct(b');
    forall s
      ensures UsedAt(b', s) <==> UsedAt(b, s) || s in {b[i].result.source}
    {
      assert b'[i].used && b'[i].result == b[i].result;
      if UsedAt(b, s) {
        var j :| 0 <= j < |b| && b[j].used && b[j].result.source == s;
        assert b'[j].used;
      }
    }
    UsedByBucket(es, h, b', {b[i].result.source});
  }

  lemma GrowBucket(env: Env, es: Entries, h: Word, r: UnitConfig)
    requires Tidy(env, es) && CanonicallyStored(env, h, r)
    requires forall j | 0 <= j < |BucketAt(es, h)| :: BucketAt(es, h)[j].result.source != r.source
    ensures var es' := es[h := BucketAt(es, h) + [Entry(r, true)]];
            Tidy(env, es') && Used(es') == Used(es) + {r.source}
  {
    hide CanonicallyStored;
    var b := BucketAt(es, h);
    var b' := b + [Entry(r, true)];
    assert Distinct(b');
    assert b'[|b|] == Entry(r, true);
    forall s
      ensures UsedAt(b', s) <==> UsedAt(b, s) || s in {r.source}
    {
      if UsedAt(b, s) {
        var j :| 0 <= j < |b| && b[j].used && b[j].result.source == s;
        assert b'[j].used;
      }
    }
    UsedByBucket(es, h, b', {r.source});
  }

  ghost predicate UsedAt(b: Bucket, s: Struct) {
    exists i | 0 <= i < |b| :: b[i].used && b[i].result.source == s
  }

  /** Replacing one bucket by one that marks the given sources in addition. */
  lemma UsedByBucket(es: Entries, h: Word, b: Bucket, more: set<Struct>)
    requires forall s :: UsedAt(b, s) <==> UsedAt(BucketAt(es, h), s) || s in more
    ensures Used(es[h := b]) == Used(es) + more
  {
    var es': Entries := es[h := b];
    forall s
      ensures s in Used(es') <==> s in Used(es) + more
    {
      assert s in Used(es') <==> exists g | g in es' :: UsedAt(es'[g], s);
      assert s in Used(es) <==> exists g | g in es :: UsedAt(es[g], s);
      assert UsedAt(es'[h], s) <==> UsedAt(BucketAt(es, h), s) || s in more;
      assert forall g | g in es && g != h :: es'[g] == es[g];
    }
  }

  /** What Keep keeps: used entries at increasing positions, flags cleared. */
  lemma {:induction false} KeepFrom(b: Bucket, k: nat) returns (i: nat)
    requires k < |Keep(b)|
    ensures k <= i < |b| && b[i].used && Keep(b)[k] == b[i].(used := false)
    ensures Keep(b[..i]) == Keep(b)[..k]
    decreases |b|
  {
    var n := |b| - 1;
    if b[n].used && k == |Keep(b)| - 1 {
      i := n;
      KeepShrinks(b[..n]);
    } else {
      i := KeepFrom(b[..n], k);
      assert b[..n][..i] == b[..i];
    }
  }

  lemma {:induction false} KeepShrinks(b: Bucket)
    ensures |Keep(b)| <= |b|
  {
    if b != [] { KeepShrinks(b[..|b| - 1]); }
  }

  lemma {:induction false} KeepCovers(b: Bucket, i: nat) returns (k: nat)
    requires i < |b| && b[i].used
    ensures k < |Keep(b)| && Keep(b)[k] == b[i].(used := false)
    decreases |b|
  {
    var n := |b| - 1;
    if i == n {
      k := |Keep(b)| - 1;
    } else {
      k := KeepCovers(b[..n], i);
    }
  }

  lemma {:induction false} KeepDistinct(b: Bucket)
    requires Distinct(b)
    ensures Distinct(Keep(b))
    decreases |b|
  {
    if b != [] {
      var n := |b| - 1;
      KeepDistinct(b[..n]);
      if b[n].used {
        forall k | 0 <= k < |Keep(b[..n])|
          ensures Keep(b[..n])[k].result.source != b[n].result.source
        {
          var i := KeepFrom(b[..n], k);
        }
      }
    }
  }

  /** After a sweep the stored sources are exactly those used before it; every flag is cleared. */
  lemma SweepKeepsUsed(env: Env, es: Entries)
    requires Tidy(env, es)
    ensures Tidy(env, SweepOf(es))
    ensures Sources(SweepOf(es)) == Used(es)
    ensures Used(SweepOf(es)) == {}
    ensures forall h, k | h in SweepOf(es) && 0 <= k < |SweepOf(es)[h]| :: !SweepOf(es)[h][k].used
  {
    var es': Entries := SweepOf(es);
    forall h, k | h in es' && 0 <= k < |es'[h]|
      ensures CanonicallyStored(env, h, es'[h][k].result) && !es'[h][k].used && es'[h][k].result.source in Used(es)
    {
      var i := KeepFrom(es[h], k);
      assert es[h][i].used;
    }
    forall h | h in es' ensures Distinct(es'[h]) { KeepDistinct(es[h]); }
    forall s | s in Used(es) ensures s in Sources(es') {
      var h, i :| h in es && 0 <= i < |es[h]| && es[h][i].used && es[h][i].result.source == s;
      var k := KeepCovers(es[h], i);
      assert es'[h][k].result.source == s;
    }
  }

  // ---------- Runs ----------

  datatype Op = LookUp(cfg: Config, choose: Chooser) | SweepAll

  ghost predicate ValidOps(ops: seq<Op>) {
    forall i | 0 <= i < |ops| && ops[i].LookUp? :: ValidChooser(ops[i].choose)
  }

  ghost predicate CanonicalOps(env: Env, ops: seq<Op>) {
    forall i | 0 <= i < |ops| && ops[i].LookUp? :: Canonical(env, Map(ops[i].cfg))
  }

  /** The entries after a run from the empty cache. */
  ghost function After(env: Env, ops: seq<Op>): Entries
    requires ValidOps(ops)
  {
    if ops == [] then map[]
    else
      var es := After(env, ops[..|ops| - 1]);
      match ops[|ops| - 1]
      case LookUp(cfg, choose) => LookupIn(env, es, cfg, choose).0
      case SweepAll => SweepOf(es)
  }

  /** The sources successfully generated since the last sweep of a run. */
  ghost function Live(env: Env, ops: seq<Op>): set<Struct>
    requires ValidOps(ops)
  {
    if ops == [] then {}
    else
      var before := Live(env, ops[..|ops| - 1]);
      match ops[|ops| - 1]
      case LookUp(cfg, choose) =>
        var r := Expected(env, cfg, choose);
        before + (if r.Ok? then {r.value.source} else {})
      case SweepAll => {}
  }

  lemma {:induction false} RunSound(env: Env, ops: seq<Op>)
    requires Lawful(env) && ValidOps(ops)
    ensures Sound(env, After(env, ops))
  {
    if ops != [] {
      var init := ops[..|ops| - 1];
      RunSound(env, init);
      var es := After(env, init);
      match ops[|ops| - 1]
      case LookUp(cfg, choose) => LookupSound(env, es, cfg, choose);
      case SweepAll =>
        forall h, k | h in SweepOf(es) && 0 <= k < |SweepOf(es)[h]|
          ensures Stored(env, h, SweepOf(es)[h][k].result)
        {
          var i := KeepFrom(es[h], k);
        }
    }
  }

  /** After every run of lookups and sweeps, whatever configurations it used, a successful lookup
      returns a result with the source of the configuration asked for, exactly so when no number in it is a zero. */
  lemma EveryLookupReturnsItsSource(env: Env, ops: seq<Op>, cfg: Config, choose: Chooser)
    requires Lawful(env) && ValidOps(ops) && ValidChooser(choose)
    ensures var r := LookupIn(env, After(env, ops), cfg, choose).1;
            && (r.Ok? ==> SourceFor(env, cfg, r.value.source))
            && (r.Err? ==> Expected(env, cfg, choose) == r)
  {
    RunSound(env, ops);
    LookupSound(env, After(env, ops), cfg, choose);
  }

  /** Runs over canonical configurations keep the cache tidy, with exactly the live sources marked. */
  lemma {:induction false} CanonicalRun(env: Env, ops: seq<Op>)
    requires Lawful(env) && ValidOps(ops) && CanonicalOps(env, ops)
    ensures Tidy(env, After(env, ops))
    ensures Used(After(env, ops)) == Live(env, ops)
  {
    hide Expected;
    if ops != [] {
      var init := ops[..|ops| - 1];
      CanonicalRun(env, init);
      var es := After(env, init);
      match ops[|ops| - 1]
      case LookUp(cfg, choose) => LookupRefines(env, es, cfg, choose);
      case SweepAll => SweepKeepsUsed(env, es);
    }
  }

  /** After every canonical run, a lookup is exactly the uncached generation, errors included. */
  lemma CachedIsUncached(env: Env, ops: seq<Op>, cfg: Config, choose: Chooser)
    requires Lawful(env) && ValidOps(ops) && CanonicalOps(env, ops)
    requires ValidChooser(choose) && Canonical(env, Map(cfg))
    ensures LookupIn(env, After(env, ops), cfg, choose).1 == Expected(env, cfg, choose)
  {
    CanonicalRun(env, ops);
    LookupRefines(env, After(env, ops), cfg, choose);
  }

  /** Right after a sweep the cache holds exactly the sources looked up since the previous one,
      each once, all flags cleared and no bucket empty. */
  lemma SweptCacheIsLiveSet(env: Env, ops: seq<Op>)
    requires Lawful(env) && ValidOps(ops) && CanonicalOps(env, ops)
    ensures ValidOps(ops + [SweepAll])
    ensures var es := After(env, ops + [SweepAll]);
            && Sources(es) == Live(env, ops)
            && Total(es) == |Live(env, ops)|
            && (forall h | h in es :: es[h] != [] && forall i | 0 <= i < |es[h]| :: !es[h][i].used)
  {
    var all := ops + [SweepAll];
    assert all[..|all| - 1] == ops;
    CanonicalRun(env, ops);
    SweepIsLive(env, After(env, ops));
  }

  lemma SweepIsLive(env: Env, es: Entries)
    requires Lawful(env) && Tidy(env, es)
    ensures var es' := SweepOf(es);
            && Sources(es') == Used(es)
            && Total(es') == |Used(es)|
            && (forall h | h in es' :: es'[h] != [] && forall i | 0 <= i < |es'[h]| :: !es'[h][i].used)
  {
    hide CanonicallyStored;
    SweepKeepsUsed(env, es);
    var es': Entries := SweepOf(es);
    SourcesCount(env, es', Positions(es'));
    assert Sources(es') == SourcesAt(es', Positions(es')) by { SourcesAtAll(es'); }
  }

  lemma SourcesAtAll(es: Entries)
    ensures Sources(es) == SourcesAt(es, Positions(es))
  {
    forall s | s in Sources(es) ensures s in SourcesAt(es, Positions(es)) {
      var h, i :| h in es && 0 <= i < |es[h]| && es[h][i].result.source == s;
      assert (h, i) in Positions(es);
    }
  }

  ghost function SourcesAt(es: Entries, ps: set<(Word, nat)>): set<Struct>
    requires ps <= Positions(es)
  {
    set p | p in ps :: es[p.0][p.1].result.source
  }

  lemma {:induction false} SourcesCount(env: Env, es: Entries, ps: set<(Word, nat)>)
    requires Lawful(env) && Tidy(env, es) && ps <= Positions(es)
    ensures |SourcesAt(es, ps)| == |ps|
    decreases |ps|
  {
    hide Tidy, Lawful;
    if p :| p in ps {
      SourcesCount(env, es, ps - {p});
      var s := es[p.0][p.1].result.source;
      if s in SourcesAt(es, ps - {p}) {
        var q :| q in ps - {p} && es[q.0][q.1].result.source == s;
        SourcesUnique(env, es, p.0, p.1, q.0, q.1);
      }
      assert SourcesAt(es, ps) == SourcesAt(es, ps - {p}) + {s};
    }
  }
}
