/** The configuration hash of the expected-config cache. */
module ConfigHash {
  import opened Words
  import opened Values

  const TAG_NIL: Word := 0x1
  const TAG_FALSE: Word := 0x2
  const TAG_TRUE: Word := 0x102
  const TAG_NUMBER: Word := 0x3
  const TAG_STRING: Word := 0x4
  const TAG_MAP: Word := 0x5
  const TAG_LIST: Word := 0x6
  const TAG_UNSUPPORTED: Word := 0xff

  /** uint64(len) << 8. */
  function LengthBits(n: nat): Word { Wrap(n * 256) }

  function EntryWord(env: Env, k: string, h: Word): Word {
    Mix64(XorWord(env.xxhash(k), Rotl(h, 29)))
  }

  /** The wrapping sum of a map's words, taken in some order. */
  ghost function SumWords(m: map<string, Word>): Word
    decreases |m|
  {
    if m == map[] then 0
    else
      var k :| k in m;
      Add(m[k], SumWords(m - {k}))
  }

  function MapWord(sum: Word, n: nat): Word {
    Mix64(XorWord(XorWord(TAG_MAP, sum), LengthBits(n)))
  }

  function FoldWords(h: Word, hs: seq<Word>): Word
    decreases |hs|
  {
    if hs == [] then h
    else Mix64(XorWord(FoldWords(h, hs[..|hs| - 1]), hs[|hs| - 1]))
  }

  function ListWord(hs: seq<Word>): Word {
    Mix64(FoldWords(XorWord(TAG_LIST, LengthBits(|hs|)), hs))
  }

  /** hashConfigValue as a function. The sum over a map is taken in some order; SumWordsAt shows
      that the order is irrelevant. */
  ghost function Hash(env: Env, v: Value): Word {
    match v
    case Nil => Mix64(TAG_NIL)
    case Bool(b) => Mix64(if b then TAG_TRUE else TAG_FALSE)
    case Str(s) => Mix64(XorWord(TAG_STRING, env.xxhash(s)))
    case Bytes(s) => Mix64(XorWord(TAG_STRING, env.xxhash(s)))
    case Map(fields) => MapWord(SumWords(map k | k in fields :: EntryWord(env, k, Hash(env, fields[k]))), |fields|)
    case List(elems) => ListWord(seq(|elems|, i requires 0 <= i < |elems| => Hash(env, elems[i])))
    case Num(n) =>
      (match NumberValue(env, n)
       case Some(f) => Mix64(XorWord(TAG_NUMBER, env.floatBits(f)))
       case None => Mix64(TAG_UNSUPPORTED))
    case Other => Mix64(TAG_UNSUPPORTED)
  }

  /** Any key may be summed first. */
  lemma {:induction false} SumWordsAt(m: map<string, Word>, k: string)
    requires k in m
    ensures SumWords(m) == Add(m[k], SumWords(m - {k}))
    decreases |m|
  {
    hide Add;
    var j :| j in m && SumWords(m) == Add(m[j], SumWords(m - {j}));
    if j != k {
      SumWordsAt(m - {j}, k);
      SumWordsAt(m - {k}, j);
      assert m - {j} - {k} == m - {k} - {j};
      var rest := SumWords(m - {j} - {k});
      AddAssociates(m[j], m[k], rest);
      AddAssociates(m[k], m[j], rest);
      AddCommutes(m[j], m[k]);
    }
  }

  ghost function Restrict(m: map<string, Word>, ks: set<string>): map<string, Word>
    requires ks <= m.Keys
  {
    map k | k in ks :: m[k]
  }

  /** The words of the keys still to do, added to sum, give the sum of all. */
  ghost predicate Remaining(m: map<string, Word>, todo: set<string>, sum: Word) {
    todo <= m.Keys && Add(sum, SumWords(Restrict(m, todo))) == SumWords(m)
  }

  lemma SumStart(m: map<string, Word>)
    ensures Remaining(m, m.Keys, 0)
  {
    assert Restrict(m, m.Keys) == m;
  }

  lemma SumStep(m: map<string, Word>, todo: set<string>, sum: Word, k: string)
    requires Remaining(m, todo, sum) && k in todo
    ensures Remaining(m, todo - {k}, Add(sum, m[k]))
  {
    hide Add;
    var rest := Restrict(m, todo);
    SumWordsAt(rest, k);
    assert rest - {k} == Restrict(m, todo - {k});
    AddAssociates(sum, m[k], SumWords(rest - {k}));
  }

  lemma SumEnd(m: map<string, Word>, sum: Word)
    requires Remaining(m, {}, sum)
    ensures sum == SumWords(m)
  {
    assert Restrict(m, {}) == map[];
  }

  /** The words a map's hash sums. */
  lemma EntryWords(env: Env, v: Value) returns (words: map<string, Word>)
    requires v.Map?
    ensures words.Keys == v.fields.Keys
    ensures forall k | k in words :: words[k] == EntryWord(env, k, Hash(env, v.fields[k]))
    ensures Hash(env, v) == MapWord(SumWords(words), |v.fields|)
  {
    words := map k | k in v.fields :: EntryWord(env, k, Hash(env, v.fields[k]));
  }

  /** hashConfigValue. */
  method HashConfigValue(env: Env, v: Value) returns (h: Word)
    ensures h == Hash(env, v)
    decreases v, 1
  {
    match v
    case Map(_) => h := HashMap(env, v);
    case List(_) => h := HashList(env, v);
    case Nil => h := Mix64(TAG_NIL);
    case Bool(b) => h := Mix64(if b then TAG_TRUE else TAG_FALSE);
    case Str(s) => h := Mix64(XorWord(TAG_STRING, env.xxhash(s)));
    case Bytes(s) => h := Mix64(XorWord(TAG_STRING, env.xxhash(s)));
    case Num(n) =>
      var f := NumberValue(env, n);
      h := if f.Some? then Mix64(XorWord(TAG_NUMBER, env.floatBits(f.value))) else Mix64(TAG_UNSUPPORTED);
    case Other => h := Mix64(TAG_UNSUPPORTED);
  }

  /** The map case: entries are added in whatever order the runtime iterates them. */
  method HashMap(env: Env, v: Value) returns (h: Word)
    requires v.Map?
    ensures h == Hash(env, v)
    decreases v, 0
  {
    hide Add, EntryWord, MapWord;
    ghost var words := EntryWords(env, v);
    SumStart(words);
    var sum: Word := 0;
    var todo := v.fields.Keys;
    while todo != {}
      invariant Remaining(words, todo, sum)
      decreases |todo|
    {
      var k :| k in todo;
      var hk := HashConfigValue(env, v.fields[k]);
      var word := EntryWord(env, k, hk);
      assert word == words[k];
      SumStep(words, todo, sum, k);
      sum := Add(sum, word);
      todo := todo - {k};
    }
    SumEnd(words, sum);
    h := MapWord(sum, |v.fields|);
  }

  method HashList(env: Env, v: Value) returns (h: Word)
    requires v.List?
    ensures h == Hash(env, v)
    decreases v, 0
  {
    ghost var hs := seq(|v.elems|, i requires 0 <= i < |v.elems| => Hash(env, v.elems[i]));
    h := XorWord(TAG_LIST, LengthBits(|v.elems|));
    ghost var start := h;
    for i := 0 to |v.elems|
      invariant h == FoldWords(start, hs[..i])
    {
      var he := HashConfigValue(env, v.elems[i]);
      assert hs[..i + 1][..i] == hs[..i];
      h := Mix64(XorWord(h, he));
    }
    assert hs[..|v.elems|] == hs;
    h := Mix64(h);
  }

  // ---------- Values with the same source hash equally ----------

  predicate NoBytes(v: Value) {
    match v
    case Bytes(_) => false
    case Map(fields) => forall k | k in fields :: NoBytes(fields[k])
    case List(elems) => forall i | 0 <= i < |elems| :: NoBytes(elems[i])
    case _ => true
  }

  lemma {:induction false} CanonicalNoBytes(env: Env, v: Value)
    requires Canonical(env, v)
    ensures NoBytes(v)
  {
    match v
    case Map(fields) => forall k | k in fields ensures NoBytes(fields[k]) { CanonicalNoBytes(env, fields[k]); }
    case List(elems) => forall i | 0 <= i < |elems| ensures NoBytes(elems[i]) { CanonicalNoBytes(env, elems[i]); }
    case _ =>
  }

  /** The hash is a function of the source: key order and numeric type do not matter. */
  lemma {:induction false} HashBySource(env: Env, v: Value, w: Value)
    requires NoBytes(v) && NoBytes(w)
    requires Convertible(env, v) && Convertible(env, w) && Convert(env, v) == Convert(env, w)
    ensures Hash(env, v) == Hash(env, w)
  {
    hide Mix64, MapWord, ListWord, EntryWord, XorWord, Rotl;
    match v
    case Map(fields) =>
      ConvertFields(env, v, w);
      forall k | k in fields
        ensures Hash(env, fields[k]) == Hash(env, w.fields[k])
      {
        HashBySource(env, fields[k], w.fields[k]);
      }
      HashByEntries(env, v, w);
    case List(elems) =>
      ConvertElems(env, v, w);
      forall i | 0 <= i < |elems|
        ensures Hash(env, elems[i]) == Hash(env, w.elems[i])
      {
        HashBySource(env, elems[i], w.elems[i]);
      }
      assert ElemWords(env, v) == ElemWords(env, w);
    case _ =>
  }

  lemma HashByEntries(env: Env, v: Value, w: Value)
    requires v.Map? && w.Map? && v.fields.Keys == w.fields.Keys
    requires forall k | k in v.fields :: Hash(env, v.fields[k]) == Hash(env, w.fields[k])
    ensures Hash(env, v) == Hash(env, w)
  {
    hide Hash, MapWord, EntryWord;
    var a := EntryWords(env, v);
    var b := EntryWords(env, w);
    assert a == b;
    assert |v.fields| == |v.fields.Keys| && |w.fields| == |w.fields.Keys|;
  }

  ghost function ElemWords(env: Env, v: Value): seq<Word>
    requires v.List?
    ensures Hash(env, v) == ListWord(ElemWords(env, v))
  {
    seq(|v.elems|, i requires 0 <= i < |v.elems| => Hash(env, v.elems[i]))
  }

  // ---------- Sensitivity ----------

  datatype Step = Key(k: string) | Index(i: nat)

  predicate HasPath(v: Value, path: seq<Step>)
    decreases |path|
  {
    if path == [] then true
    else match path[0]
      case Key(k) => v.Map? && k in v.fields && HasPath(v.fields[k], path[1..])
      case Index(i) => v.List? && i < |v.elems| && HasPath(v.elems[i], path[1..])
  }

  /** The value at a path of map keys and list positions. */
  function At(v: Value, path: seq<Step>): Value
    requires HasPath(v, path)
    decreases |path|
  {
    if path == [] then v
    else match path[0]
      case Key(k) => At(v.fields[k], path[1..])
      case Index(i) => At(v.elems[i], path[1..])
  }

  /** The same value with the one at the path replaced. */
  function Replace(v: Value, path: seq<Step>, w: Value): Value
    requires HasPath(v, path)
    decreases |path|
  {
    if path == [] then w
    else match path[0]
      case Key(k) => Map(v.fields[k := Replace(v.fields[k], path[1..], w)])
      case Index(i) => List(v.elems[i := Replace(v.elems[i], path[1..], w)])
  }

  lemma EntryWordInjective(env: Env, k: string, g: Word, h: Word)
    requires g != h
    ensures EntryWord(env, k, g) != EntryWord(env, k, h)
  {
    hide Mix64, XorWord, Rotl;
    RotlInjective(g, h, 29);
    XorWordInjective(Rotl(g, 29), Rotl(h, 29), env.xxhash(k));
    Mix64Injective(XorWord(env.xxhash(k), Rotl(g, 29)), XorWord(env.xxhash(k), Rotl(h, 29)));
  }

  lemma MapWordInjective(s: Word, t: Word, n: nat)
    requires s != t
    ensures MapWord(s, n) != MapWord(t, n)
  {
    hide Mix64, XorWord;
    XorWordInjective(s, t, TAG_MAP);
    XorWordInjective(XorWord(TAG_MAP, s), XorWord(TAG_MAP, t), LengthBits(n));
    Mix64Injective(XorWord(XorWord(TAG_MAP, s), LengthBits(n)), XorWord(XorWord(TAG_MAP, t), LengthBits(n)));
  }

  /** Changing one word of a map changes the sum. */
  lemma SumWordsChange(m: map<string, Word>, k: string, w: Word)
    requires k in m && m[k] != w
    ensures SumWords(m[k := w]) != SumWords(m)
  {
    hide Add;
    SumWordsAt(m, k);
    SumWordsAt(m[k := w], k);
    assert m[k := w] - {k} == m - {k};
    if Add(w, SumWords(m - {k})) == Add(m[k], SumWords(m - {k})) {
      AddInjective(w, m[k], SumWords(m - {k}));
    }
  }

  /** Changing one element of a list changes the fold, wherever it stands. */
  lemma {:induction false} FoldWordsChange(h: Word, hs: seq<Word>, i: nat, w: Word)
    requires i < |hs| && hs[i] != w
    ensures FoldWords(h, hs[i := w]) != FoldWords(h, hs)
    decreases |hs|
  {
    hide Mix64, XorWord;
    var n := |hs| - 1;
    var f, g := FoldWords(h, hs[..n]), FoldWords(h, hs[i := w][..n]);
    if i == n {
      assert hs[i := w][..n] == hs[..n];
      XorWordInjective(hs[n], w, f);
      Mix64Injective(XorWord(f, hs[n]), XorWord(f, w));
    } else {
      assert hs[i := w][..n] == hs[..n][i := w];
      FoldWordsChange(h, hs[..n], i, w);
      XorWordInjective(f, g, hs[n]);
      Mix64Injective(XorWord(f, hs[n]), XorWord(g, hs[n]));
    }
  }

  /** Replacing one value, at any depth, by one with a different hash changes the hash of the
      whole configuration. */
  lemma {:induction false} HashSensitive(env: Env, v: Value, path: seq<Step>, w: Value)
    requires HasPath(v, path) && Hash(env, At(v, path)) != Hash(env, w)
    ensures Hash(env, Replace(v, path, w)) != Hash(env, v)
    decreases |path|
  {
    hide Mix64, MapWord, ListWord, EntryWord, FoldWords;
    if path != [] {
      match path[0]
      case Key(k) =>
        HashSensitive(env, v.fields[k], path[1..], w);
        HashSensitiveKey(env, v, k, Replace(v.fields[k], path[1..], w));
      case Index(i) =>
        HashSensitive(env, v.elems[i], path[1..], w);
        HashSensitiveIndex(env, v, i, Replace(v.elems[i], path[1..], w));
    }
  }

  lemma HashSensitiveKey(env: Env, v: Value, k: string, w: Value)
    requires v.Map? && k in v.fields && Hash(env, v.fields[k]) != Hash(env, w)
    ensures Hash(env, Map(v.fields[k := w])) != Hash(env, v)
  {
    hide Hash, MapWord, EntryWord;
    var u := Map(v.fields[k := w]);
    var a := EntryWords(env, v);
    var b := EntryWords(env, u);
    assert b == a[k := b[k]];
    EntryWordInjective(env, k, Hash(env, v.fields[k]), Hash(env, w));
    SumWordsChange(a, k, b[k]);
    assert v.fields.Keys == u.fields.Keys;
    assert |v.fields| == |v.fields.Keys| && |u.fields| == |u.fields.Keys|;
    MapWordInjective(SumWords(a), SumWords(b), |v.fields|);
  }

  lemma HashSensitiveIndex(env: Env, v: Value, i: nat, w: Value)
    requires v.List? && i < |v.elems| && Hash(env, v.elems[i]) != Hash(env, w)
    ensures Hash(env, List(v.elems[i := w])) != Hash(env, v)
  {
    hide Mix64, XorWord, FoldWords;
    var u := List(v.elems[i := w]);
    var a, b := ElemWords(env, v), ElemWords(env, u);
    assert b == a[i := b[i]];
    var start := XorWord(TAG_LIST, LengthBits(|a|));
    FoldWordsChange(start, a, i, b[i]);
    Mix64Injective(FoldWords(start, a), FoldWords(start, b));
  }
}
