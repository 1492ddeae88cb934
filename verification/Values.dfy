/** Untyped configuration values, their protobuf form, and the foreign operations
    (hashing, float formatting, case folding, ...) as parameters with the few laws used. */
module Values {

  import opened Words

  datatype Option<+T> = None | Some(value: T)

  datatype Result<+T, +E> = Ok(value: T) | Err(error: E) {
    predicate IsFailure() { Err? }
    function PropagateFailure<U>(): Result<U, E>
      requires Err?
    {
      Err(error)
    }
    function Extract(): T
      requires Ok?
    {
      value
    }
  }

  /** A float64: the finite non-negative-zero values are reals. */
  datatype F64 = Fin(r: real) | NegZero | Inf(negative: bool) | NaN

  /** The == operator on float64. */
  predicate FloatEq(a: F64, b: F64) {
    && !a.NaN? && !b.NaN?
    && (a == b || (a == NegZero && b == Fin(0.0)) || (a == Fin(0.0) && b == NegZero))
  }

  /** The numeric Go types structpb accepts. A float32 is the float64 it converts to. */
  datatype Number = Signed(i: int) | Unsigned(u: nat) | Float(f: F64) | JsonNumber(text: string)

  /** A Go interface{} holding configuration data; strings are byte strings. */
  datatype Value =
    | Nil
    | Bool(b: bool)
    | Num(n: Number)
    | Str(s: string)
    | Bytes(s: string)
    | Map(fields: map<string, Value>)
    | List(elems: seq<Value>)
    | Other // any type structpb rejects

  type Config = map<string, Value>

  /** google.protobuf.Value. */
  datatype PValue =
    | PNull
    | PBool(b: bool)
    | PNum(f: F64)
    | PStr(s: string)
    | PStruct(fields: map<string, PValue>)
    | PList(elems: seq<PValue>)

  const EXACT_INTEGERS := 0x20_0000_0000_0000 // 2^53

  /** Foreign code. */
  datatype Env = Env(
    xxhash: string -> Word,
    floatBits: F64 -> Word,
    intToFloat: int -> F64,
    parseFloat: string -> Option<F64>,
    formatFloat: F64 -> string,
    formatInt: int -> string,
    parseUint: string -> Option<nat>,
    nanAsUint: nat,
    base64: string -> string,
    validUtf8: string -> bool,
    equalFold: (string, string) -> bool)

  /** What is used about the foreign code: integers up to 2^53 are exact and print like the
      float they convert to, base64 is ASCII, and case folding is an equivalence. */
  ghost predicate Lawful(env: Env) {
    && (forall i: int | -EXACT_INTEGERS <= i <= EXACT_INTEGERS ::
          env.intToFloat(i) == Fin(i as real) && env.formatFloat(Fin(i as real)) == env.formatInt(i))
    && (forall s: string :: env.validUtf8(env.base64(s)))
    && (forall a: string :: env.equalFold(a, a))
    && (forall a: string, b: string :: env.equalFold(a, b) ==> env.equalFold(b, a))
    && (forall a: string, b: string, c: string :: env.equalFold(a, b) && env.equalFold(b, c) ==> env.equalFold(a, c))
  }

  /** numberValue. */
  function NumberValue(env: Env, n: Number): Option<F64> {
    match n
    case Signed(i) => Some(env.intToFloat(i))
    case Unsigned(u) => Some(env.intToFloat(u))
    case Float(f) => Some(f)
    case JsonNumber(text) => env.parseFloat(text)
  }

  /** structpb.NewValue succeeds. */
  predicate Convertible(env: Env, v: Value) {
    match v
    case Nil => true
    case Bool(_) => true
    case Num(n) => NumberValue(env, n).Some?
    case Str(s) => env.validUtf8(s)
    case Bytes(_) => true
    case Map(fields) => forall k | k in fields :: env.validUtf8(k) && Convertible(env, fields[k])
    case List(elems) => forall i | 0 <= i < |elems| :: Convertible(env, elems[i])
    case Other => false
  }

  /** structpb.NewValue. */
  function Convert(env: Env, v: Value): PValue
    requires Convertible(env, v)
  {
    match v
    case Nil => PNull
    case Bool(b) => PBool(b)
    case Num(n) => PNum(NumberValue(env, n).value)
    case Str(s) => PStr(s)
    case Bytes(s) => PStr(env.base64(s))
    case Map(fields) => PStruct(map k | k in fields :: Convert(env, fields[k]))
    case List(elems) => PList(seq(|elems|, i requires 0 <= i < |elems| => Convert(env, elems[i])))
  }

  /** The domain on which the typed fields are determined by the source: no raw bytes, no
      json.Number, integers exact as float64, no NaN or -0, and in every map at most one key
      per case-folding class. */
  predicate Canonical(env: Env, v: Value) {
    match v
    case Num(n) => CanonicalNumber(n)
    case Bytes(_) => false
    case Map(fields) =>
      && (forall j, k | j in fields && k in fields && env.equalFold(j, k) :: j == k)
      && (forall k | k in fields :: Canonical(env, fields[k]))
    case List(elems) => forall i | 0 <= i < |elems| :: Canonical(env, elems[i])
    case _ => true
  }

  predicate CanonicalNumber(n: Number) {
    match n
    case Signed(i) => -EXACT_INTEGERS <= i <= EXACT_INTEGERS
    case Unsigned(u) => u <= EXACT_INTEGERS
    case Float(f) => !f.NaN? && !f.NegZero?
    case JsonNumber(_) => false
  }

  /** The laws can be met. */
  lemma LawfulWitness() returns (env: Env)
    ensures Lawful(env)
  {
    env := Env(s => 0, f => 0, i => Fin(i as real), s => None, f => "", i => "", s => None, 0, s => s,
               s => true, (a, b) => a == b);
  }

  lemma ConvertFields(env: Env, v: Value, w: Value)
    requires v.Map? && Convertible(env, v) && Convertible(env, w) && Convert(env, v) == Convert(env, w)
    ensures w.Map? && v.fields.Keys == w.fields.Keys
    ensures forall k | k in v.fields ::
              Convertible(env, v.fields[k]) && Convertible(env, w.fields[k])
              && Convert(env, v.fields[k]) == Convert(env, w.fields[k]) == Convert(env, v).fields[k]
  {
    var p := Convert(env, v).fields;
    assert v.fields.Keys == p.Keys == w.fields.Keys;
  }

  lemma ConvertElems(env: Env, v: Value, w: Value)
    requires v.List? && Convertible(env, v) && Convertible(env, w) && Convert(env, v) == Convert(env, w)
    ensures w.List? && |v.elems| == |w.elems|
    ensures forall i | 0 <= i < |v.elems| ::
              Convertible(env, v.elems[i]) && Convertible(env, w.elems[i])
              && Convert(env, v.elems[i]) == Convert(env, w.elems[i]) == Convert(env, v).elems[i]
  {
    var p := Convert(env, v).elems;
    assert forall i | 0 <= i < |p| :: p[i] == Convert(env, v.elems[i]) == Convert(env, w.elems[i]);
  }

  // ---------- Comparing a stored source with a configuration ----------

  /** valueEqualsInterface, with structEqualsMap in the Map case. */
  predicate ValueEquals(env: Env, p: PValue, v: Value)
    decreases v
  {
    match v
    case Nil => p.PNull?
    case Bool(b) => p == PBool(b)
    case Str(s) => p == PStr(s)
    case Bytes(s) => p == PStr(env.base64(s))
    case Map(fields) =>
      p.PStruct? && |p.fields| == |fields|
      && forall k | k in fields :: k in p.fields && ValueEquals(env, p.fields[k], fields[k])
    case List(elems) =>
      p.PList? && |p.elems| == |elems|
      && forall i | 0 <= i < |elems| :: ValueEquals(env, p.elems[i], elems[i])
    case Num(n) =>
      var f := NumberValue(env, n);
      f.Some? && p.PNum? && FloatEq(p.f, f.value)
    case Other => false
  }

  /** Two protobuf values that agree up to float64 equality. */
  predicate SameSource(p: PValue, q: PValue) {
    match p
    case PNum(f) => q.PNum? && FloatEq(f, q.f)
    case PStruct(fields) =>
      q.PStruct? && fields.Keys == q.fields.Keys
      && forall k | k in fields :: SameSource(fields[k], q.fields[k])
    case PList(elems) =>
      q.PList? && |elems| == |q.elems|
      && forall i | 0 <= i < |elems| :: SameSource(elems[i], q.elems[i])
    case _ => p == q
  }

  /** Protobuf values hold valid UTF-8 only. */
  predicate WellFormed(env: Env, p: PValue) {
    match p
    case PStr(s) => env.validUtf8(s)
    case PStruct(fields) => forall k | k in fields :: env.validUtf8(k) && WellFormed(env, fields[k])
    case PList(elems) => forall i | 0 <= i < |elems| :: WellFormed(env, elems[i])
    case _ => true
  }

  /** No NaN and no -0. */
  predicate Clean(p: PValue) {
    match p
    case PNum(f) => !f.NaN? && !f.NegZero?
    case PStruct(fields) => forall k | k in fields :: Clean(fields[k])
    case PList(elems) => forall i | 0 <= i < |elems| :: Clean(elems[i])
    case _ => true
  }

  lemma {:induction false} ConvertWellFormed(env: Env, v: Value)
    requires Lawful(env) && Convertible(env, v)
    ensures WellFormed(env, Convert(env, v))
    ensures Canonical(env, v) ==> Clean(Convert(env, v))
  {
    match v
    case Map(fields) =>
      forall k | k in fields
        ensures WellFormed(env, Convert(env, fields[k]))
        ensures Canonical(env, v) ==> Clean(Convert(env, fields[k]))
      {
        ConvertWellFormed(env, fields[k]);
      }
    case List(elems) =>
      forall i | 0 <= i < |elems|
        ensures WellFormed(env, Convert(env, elems[i]))
        ensures Canonical(env, v) ==> Clean(Convert(env, elems[i]))
      {
        ConvertWellFormed(env, elems[i]);
      }
    case _ =>
  }

  lemma SubsetOfSameSize<T>(a: set<T>, b: set<T>)
    requires a <= b && |a| == |b|
    ensures a == b
  {
    if a != b {
      var x :| x in b && x !in a;
      SubsetSize(a, b - {x});
    }
  }

  lemma {:induction false} SubsetSize<T>(a: set<T>, b: set<T>)
    requires a <= b
    ensures |a| <= |b|
  {
    if x :| x in a {
      SubsetSize(a - {x}, b - {x});
    }
  }

  /** A stored source matches a configuration exactly when the configuration converts to that
      source, numbers being compared as float64. */
  lemma {:induction false} ValueEqualsIsConversion(env: Env, p: PValue, v: Value)
    requires WellFormed(env, p)
    ensures ValueEquals(env, p, v) <==> Convertible(env, v) && SameSource(p, Convert(env, v))
    decreases v
  {
    match v
    case Map(fields) =>
      if p.PStruct? {
        forall k | k in fields && k in p.fields
          ensures ValueEquals(env, p.fields[k], fields[k])
             <==> Convertible(env, fields[k]) && SameSource(p.fields[k], Convert(env, fields[k]))
        {
          ValueEqualsIsConversion(env, p.fields[k], fields[k]);
        }
        if ValueEquals(env, p, v) {
          assert fields.Keys <= p.fields.Keys;
          SubsetOfSameSize(fields.Keys, p.fields.Keys);
        }
        if Convertible(env, v) && SameSource(p, Convert(env, v)) {
          assert p.fields.Keys == fields.Keys;
          assert |p.fields| == |p.fields.Keys| && |fields| == |fields.Keys|;
        }
      }
    case List(elems) =>
      if p.PList? && |p.elems| == |elems| {
        forall i | 0 <= i < |elems|
          ensures ValueEquals(env, p.elems[i], elems[i])
             <==> Convertible(env, elems[i]) && SameSource(p.elems[i], Convert(env, elems[i]))
        {
          ValueEqualsIsConversion(env, p.elems[i], elems[i]);
        }
      }
    case _ =>
  }

  /** No number is a zero. */
  predicate NoZeros(p: PValue) {
    match p
    case PNum(f) => f != Fin(0.0) && !f.NegZero?
    case PStruct(fields) => forall k | k in fields :: NoZeros(fields[k])
    case PList(elems) => forall i | 0 <= i < |elems| :: NoZeros(elems[i])
    case _ => true
  }

  /** What agrees with a value without zeros is that value. */
  lemma {:induction false} SameSourceExact(p: PValue, q: PValue)
    requires SameSource(p, q) && NoZeros(q)
    ensures p == q
  {
    match p
    case PStruct(fields) =>
      forall k | k in fields ensures fields[k] == q.fields[k] { SameSourceExact(fields[k], q.fields[k]); }
      assert fields == q.fields;
    case PList(elems) =>
      forall i | 0 <= i < |elems| ensures elems[i] == q.elems[i] { SameSourceExact(elems[i], q.elems[i]); }
    case _ =>
  }

  /** Without NaN and -0, agreeing up to float64 equality is equality. */
  lemma {:induction false} SameSourceIsEquality(p: PValue, q: PValue)
    requires Clean(p) && Clean(q)
    ensures SameSource(p, q) <==> p == q
  {
    match p
    case PStruct(fields) =>
      if q.PStruct? && fields.Keys == q.fields.Keys {
        forall k | k in fields
          ensures SameSource(fields[k], q.fields[k]) <==> fields[k] == q.fields[k]
        {
          SameSourceIsEquality(fields[k], q.fields[k]);
        }
        assert fields == q.fields <==> forall k | k in fields :: fields[k] == q.fields[k];
      }
    case PList(elems) =>
      if q.PList? && |elems| == |q.elems| {
        forall i | 0 <= i < |elems|
          ensures SameSource(elems[i], q.elems[i]) <==> elems[i] == q.elems[i]
        {
          SameSourceIsEquality(elems[i], q.elems[i]);
        }
      }
    case _ =>
  }
}
