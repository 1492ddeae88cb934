/** Generation of a unit's expected configuration from a configuration map. */
module ExpectedConfigs {
  import opened Words
  import opened Values

  type Struct = map<string, PValue>

  datatype DataStream = DataStream(dataset: string, kind: string, namespace: string, source: Option<Struct>)
  datatype Package = Package(source: Option<Struct>, name: string, version: string)
  datatype Meta = Meta(source: Option<Struct>, package: Option<Package>)
  datatype Stream = Stream(source: Option<Struct>, id: string, dataStream: DataStream)
  datatype UnitConfig = UnitConfig(
    source: Struct, id: string, kind: string, name: string, revision: nat,
    meta: Option<Meta>, dataStream: DataStream, streams: seq<Stream>)

  /** Where generation failed; the message text is not modelled. */
  datatype FieldError = Unconvertible | Decode(field: string) | Dedot(field: string)

  type Field<T> = Result<T, FieldError>

  /** Go iterates a map in an arbitrary order: when several keys fold to the wanted name, the one
      found is the chooser's pick, which may depend on where the lookup happens. */
  type Chooser = (string, set<string>) -> string

  ghost predicate ValidChooser(choose: Chooser) {
    forall path: string, keys: set<string> :: keys != {} ==> choose(path, keys) in keys
  }

  /** lookupField: the key found, exactly or failing that case-insensitively. */
  function LookupField(env: Env, m: Config, name: string, path: string, choose: Chooser): (key: Option<string>)
    requires ValidChooser(choose)
    ensures key.Some? ==> key.value in m
  {
    if name in m then Some(name)
    else
      var keys := set k | k in m && env.equalFold(k, name);
      if keys == {} then None else Some(choose(path, keys))
  }

  /** stringValue; None is its error. */
  function StringValue(env: Env, v: Value): Option<string> {
    match v
    case Nil => Some("")
    case Str(s) => Some(s)
    case Bool(b) => Some(if b then "1" else "0")
    case Bytes(s) => Some(s)
    case Num(JsonNumber(text)) => Some(text)
    case Num(Float(f)) => Some(env.formatFloat(f))
    case Num(Unsigned(u)) => Some(env.formatInt(u))
    case Num(Signed(i)) => Some(env.formatInt(i))
    case _ => None
  }

  /** stringField. */
  function StringField(env: Env, m: Config, name: string, prefix: string, choose: Chooser): Field<string>
    requires ValidChooser(choose)
  {
    match LookupField(env, m, name, prefix + name, choose)
    case None => Ok("")
    case Some(k) =>
      match StringValue(env, m[k])
      case None => Err(Decode(prefix + name))
      case Some(s) => Ok(s)
  }

  predicate OutOfUintRange(f: F64) {
    match f
    case Fin(r) => r < 0.0 || r >= MOD as real
    case Inf(_) => true
    case _ => false
  }

  /** uint64(f) for an f in range. */
  function FloatToUint(env: Env, f: F64): nat
    requires !OutOfUintRange(f)
  {
    match f
    case Fin(r) => r.Floor
    case NaN => env.nanAsUint
    case NegZero => 0
  }

  /** The conversion inside uint64Field; None is its error. */
  function UintValue(env: Env, v: Value): Option<nat> {
    match v
    case Nil => Some(0)
    case Bool(b) => Some(if b then 1 else 0)
    case Str(s) => if s == "" then Some(0) else env.parseUint(s)
    case Num(n) =>
      if n.JsonNumber? then env.parseUint(n.text)
      else
        var f := NumberValue(env, n).value;
        if OutOfUintRange(f) then None
        else
          Some(match n
               case Unsigned(u) => u
               case Float(_) => FloatToUint(env, f)
               case Signed(i) => i % MOD)
    case _ => None
  }

  /** uint64Field. */
  function UintField(env: Env, m: Config, name: string, choose: Chooser): Field<nat>
    requires ValidChooser(choose)
  {
    match LookupField(env, m, name, name, choose)
    case None => Ok(0)
    case Some(k) =>
      match UintValue(env, m[k])
      case None => Err(Decode(name))
      case Some(u) => Ok(u)
  }

  /** source.Fields[key].GetStructValue(), nil-safe as the generated accessors are. */
  function FieldStruct(source: Option<Struct>, key: string): Option<Struct> {
    if source.Some? && key in source.value then ValueStruct(source.value[key]) else None
  }

  function ValueStruct(p: PValue): Option<Struct> {
    if p.PStruct? then Some(p.fields) else None
  }

  /** A nested dictionary: absent (or nil), a map under some key, or a type error. */
  datatype Nested = Absent | Found(key: string, fields: Config) | NotAMap

  function NestedMap(env: Env, m: Config, name: string, path: string, choose: Chooser): (n: Nested)
    requires ValidChooser(choose)
    ensures n.Found? ==> n.key in m && m[n.key] == Map(n.fields)
  {
    match LookupField(env, m, name, path, choose)
    case None => Absent
    case Some(k) =>
      match m[k]
      case Nil => Absent
      case Map(fields) => Found(k, fields)
      case _ => NotAMap
  }

  // ---------- data_stream ----------

  datatype Triple = Triple(dataset: string, kind: string, namespace: string)

  function NestedValue(env: Env, fields: Config, name: string): Option<string> {
    StringValue(env, if name in fields then fields[name] else Nil)
  }

  /** A flattened data_stream.<field> key overrides the nested value. */
  function Flattened(env: Env, m: Config, key: string, prefix: string, nested: Option<string>,
                     choose: Chooser): Option<string>
    requires ValidChooser(choose)
  {
    match LookupField(env, m, key, prefix + key, choose)
    case None => nested
    case Some(k) => StringValue(env, m[k])
  }

  /** dataStreamFromSource; None is its error. */
  function DataStreamFromSource(env: Env, m: Config, prefix: string, choose: Chooser): Option<Triple>
    requires ValidChooser(choose)
  {
    var nested := if "data_stream" in m && m["data_stream"].Map? then m["data_stream"].fields else map[];
    var nd, nt, nn := NestedValue(env, nested, "dataset"), NestedValue(env, nested, "type"),
        NestedValue(env, nested, "namespace");
    if nd.None? || nt.None? || nn.None? then None
    else
      var d := Flattened(env, m, "data_stream.dataset", prefix, nd, choose);
      var t := Flattened(env, m, "data_stream.type", prefix, nt, choose);
      var n := Flattened(env, m, "data_stream.namespace", prefix, nn, choose);
      if d.None? || t.None? || n.None? then None else Some(Triple(d.value, t.value, n.value))
  }

  predicate Conflict(a: string, b: string) { a != b && a != "" && b != "" }

  function ValueOrDefault(a: string, b: string): string { if a == "" then b else a }

  /** dataStreamField, with deDotDataStream. */
  function DataStreamField(env: Env, m: Config, source: Option<Struct>, prefix: string,
                           choose: Chooser): Field<DataStream>
    requires ValidChooser(choose)
  {
    var ds :- NestedDataStream(env, m, source, prefix, choose);
    match DataStreamFromSource(env, m, prefix, choose)
    case None => Err(Dedot(prefix + "data_stream"))
    case Some(t) =>
      if Conflict(ds.dataset, t.dataset) || Conflict(ds.kind, t.kind) || Conflict(ds.namespace, t.namespace)
      then Err(Dedot(prefix + "data_stream"))
      else Ok(DataStream(ValueOrDefault(t.dataset, ds.dataset), ValueOrDefault(t.kind, ds.kind),
                         ValueOrDefault(t.namespace, ds.namespace), ds.source))
  }

  function NestedDataStream(env: Env, m: Config, source: Option<Struct>, prefix: string,
                            choose: Chooser): Field<DataStream>
    requires ValidChooser(choose)
  {
    match NestedMap(env, m, "data_stream", prefix + "data_stream", choose)
    case Absent => Ok(DataStream("", "", "", None))
    case NotAMap => Err(Decode(prefix + "data_stream"))
    case Found(key, fields) =>
      var d :- StringField(env, fields, "dataset", prefix + "data_stream.", choose);
      var t :- StringField(env, fields, "type", prefix + "data_stream.", choose);
      var n :- StringField(env, fields, "namespace", prefix + "data_stream.", choose);
      Ok(DataStream(d, t, n, FieldStruct(source, key)))
  }

  // ---------- meta ----------

  function MetaField(env: Env, m: Config, source: Option<Struct>, choose: Chooser): Field<Option<Meta>>
    requires ValidChooser(choose)
  {
    match NestedMap(env, m, "meta", "meta", choose)
    case Absent => Ok(None)
    case NotAMap => Err(Decode("meta"))
    case Found(key, fields) =>
      var metaSource := FieldStruct(source, key);
      var package :- PackageField(env, fields, metaSource, choose);
      Ok(Some(Meta(metaSource, package)))
  }

  function PackageField(env: Env, m: Config, source: Option<Struct>, choose: Chooser): Field<Option<Package>>
    requires ValidChooser(choose)
  {
    match NestedMap(env, m, "package", "meta.package", choose)
    case Absent => Ok(None)
    case NotAMap => Err(Decode("meta.package"))
    case Found(key, fields) =>
      var name :- StringField(env, fields, "name", "meta.package.", choose);
      var version :- StringField(env, fields, "version", "meta.package.", choose);
      Ok(Some(Package(FieldStruct(source, key), name, version)))
  }

  // ---------- streams ----------

  /** The stream values with their converted forms; a single map counts as one stream unless empty. */
  function StreamItems(env: Env, m: Config, source: Option<Struct>,
                       choose: Chooser): Field<seq<(Value, Option<Struct>)>>
    requires ValidChooser(choose)
  {
    match LookupField(env, m, "streams", "streams", choose)
    case None => Ok([])
    case Some(k) =>
      match m[k]
      case Nil => Ok([])
      case List(elems) =>
        Ok(seq(|elems|, i requires 0 <= i < |elems| => (elems[i], ListStruct(source, k, i))))
      case Map(fields) => Ok(if |fields| > 0 then [(m[k], FieldStruct(source, k))] else [])
      case _ => Err(Decode("streams"))
  }

  function ListStruct(source: Option<Struct>, key: string, i: nat): Option<Struct> {
    if source.Some? && key in source.value && source.value[key].PList? && i < |source.value[key].elems|
    then ValueStruct(source.value[key].elems[i]) else None
  }

  function StreamName(env: Env, i: nat): string { "streams[" + env.formatInt(i) + "]" }

  function StreamOf(env: Env, item: (Value, Option<Struct>), i: nat, choose: Chooser): Field<Stream>
    requires ValidChooser(choose)
  {
    match item.0
    case Map(fields) =>
      var id :- StringField(env, fields, "id", StreamName(env, i) + ".", choose);
      var ds :- DataStreamField(env, fields, item.1, StreamName(env, i) + ".", choose);
      Ok(Stream(item.1, id, ds))
    case _ => Err(Decode(StreamName(env, i)))
  }

  /** The first n streams, or the first error among them. */
  function Streams(env: Env, items: seq<(Value, Option<Struct>)>, n: nat, choose: Chooser): Field<seq<Stream>>
    requires ValidChooser(choose) && n <= |items|
  {
    if n == 0 then Ok([])
    else
      var init :- Streams(env, items, n - 1, choose);
      var last :- StreamOf(env, items[n - 1], n - 1, choose);
      Ok(init + [last])
  }

  // ---------- the whole configuration ----------

  function Expected(env: Env, cfg: Config, choose: Chooser): (r: Field<UnitConfig>)
    requires ValidChooser(choose)
    ensures r.Ok? ==> Convertible(env, Map(cfg)) && PStruct(r.value.source) == Convert(env, Map(cfg))
  {
    if !Convertible(env, Map(cfg)) then Err(Unconvertible)
    else
      var source := Convert(env, Map(cfg)).fields;
      var id :- StringField(env, cfg, "id", "", choose);
      var kind :- StringField(env, cfg, "type", "", choose);
      var name :- StringField(env, cfg, "name", "", choose);
      var revision :- UintField(env, cfg, "revision", choose);
      var meta :- MetaField(env, cfg, Some(source), choose);
      var dataStream :- DataStreamField(env, cfg, Some(source), "", choose);
      var items :- StreamItems(env, cfg, Some(source), choose);
      var streams :- Streams(env, items, |items|, choose);
      Ok(UnitConfig(source, id, kind, name, revision, meta, dataStream, streams))
  }

  /** ExpectedConfig: fields are read in order and the streams in a loop, stopping at the first error. */
  method ExpectedConfig(env: Env, cfg: Config, choose: Chooser) returns (r: Field<UnitConfig>)
    requires ValidChooser(choose)
    ensures r == Expected(env, cfg, choose)
  {
    if !Convertible(env, Map(cfg)) { return Err(Unconvertible); }
    var source := Convert(env, Map(cfg)).fields;
    var id :- StringField(env, cfg, "id", "", choose);
    var kind :- StringField(env, cfg, "type", "", choose);
    var name :- StringField(env, cfg, "name", "", choose);
    var revision :- UintField(env, cfg, "revision", choose);
    var meta :- MetaField(env, cfg, Some(source), choose);
    var dataStream :- DataStreamField(env, cfg, Some(source), "", choose);
    var items :- StreamItems(env, cfg, Some(source), choose);
    var streams: seq<Stream> := [];
    for i := 0 to |items|
      invariant Streams(env, items, i, choose) == Ok(streams)
    {
      var stream := StreamOf(env, items[i], i, choose);
      if stream.Err? {
        StreamsFail(env, items, i + 1, |items|, choose);
        return Err(stream.error);
      }
      streams := streams + [stream.value];
    }
    r := Ok(UnitConfig(source, id, kind, name, revision, meta, dataStream, streams));
  }

  lemma {:induction false} StreamsFail(env: Env, items: seq<(Value, Option<Struct>)>, i: nat, n: nat, choose: Chooser)
    requires ValidChooser(choose) && i <= n <= |items| && Streams(env, items, i, choose).Err?
    ensures Streams(env, items, n, choose) == Streams(env, items, i, choose)
    decreases n - i
  {
    if i < n {
      StreamsFail(env, items, i, n - 1, choose);
    }
  }

  // ---------- What the typed fields mean ----------

  /** The key holds the field: its exact name or, failing that, one equal to it up to case. */
  ghost predicate Holds(env: Env, m: Config, name: string, k: string) {
    k in m && (k == name || (name !in m && env.equalFold(k, name)))
  }

  /** The text of a field: that of a value held for it, or empty when none is. */
  ghost predicate ReadsText(env: Env, m: Config, name: string, s: string) {
    || (exists k :: Holds(env, m, name, k) && StringValue(env, m[k]) == Some(s))
    || ((forall k :: !Holds(env, m, name, k)) && s == "")
  }

  ghost predicate ReadsNumber(env: Env, m: Config, name: string, u: nat) {
    || (exists k :: Holds(env, m, name, k) && UintValue(env, m[k]) == Some(u))
    || ((forall k :: !Holds(env, m, name, k)) && u == 0)
  }

  /** A nested dictionary held under a name, or none. */
  ghost predicate ReadsNested(env: Env, m: Config, name: string, fields: Option<Config>) {
    match fields
    case Some(f) => exists k :: Holds(env, m, name, k) && m[k] == Map(f)
    case None => (forall k :: !Holds(env, m, name, k)) || exists k :: Holds(env, m, name, k) && m[k].Nil?
  }

  /** A field of the nested data_stream dictionary. */
  ghost predicate ReadsInside(env: Env, m: Config, field: string, s: string) {
    exists fields :: ReadsNested(env, m, "data_stream", fields)
                     && if fields.Some? then ReadsText(env, fields.value, field, s) else s == ""
  }

  /** The same field in its flattened form, which stands in for the nested one where it is missing. */
  ghost predicate ReadsFlattened(env: Env, m: Config, field: string, s: string) {
    || (exists k :: Holds(env, m, "data_stream." + field, k) && StringValue(env, m[k]) == Some(s))
    || ((forall k :: !Holds(env, m, "data_stream." + field, k))
        && var nested := if "data_stream" in m && m["data_stream"].Map? then m["data_stream"].fields else map[];
        NestedValue(env, nested, field) == Some(s))
  }

  /** Both forms of a data_stream field agree unless one is empty, and the other one is taken then. */
  ghost predicate ReadsDataStream(env: Env, m: Config, field: string, s: string) {
    exists a, b :: ReadsInside(env, m, field, a) && ReadsFlattened(env, m, field, b)
                   && (a == b || a == "" || b == "") && s == (if b != "" then b else a)
  }

  ghost predicate ReadsStreamData(env: Env, m: Config, ds: DataStream) {
    ReadsDataStream(env, m, "dataset", ds.dataset) && ReadsDataStream(env, m, "type", ds.kind)
        && ReadsDataStream(env, m, "namespace", ds.namespace)
  }

  ghost predicate ReadsPackage(env: Env, m: Config, meta: Option<Meta>) {
    exists fields :: ReadsNested(env, m, "meta", fields)
      && match meta
         case None => fields.None?
         case Some(mt) =>
           && fields.Some?
           && exists inner :: ReadsNested(env, fields.value, "package", inner)
                && match mt.package
                   case None => inner.None?
                   case Some(p) =>
                     && inner.Some? && ReadsText(env, inner.value, "name", p.name)
                     && ReadsText(env, inner.value, "version", p.version)
  }

  /** The maps of the streams: a list of them, one map that is not empty, or none. */
  ghost predicate ReadsStreams(env: Env, m: Config, items: seq<Value>) {
    || (items == [] && forall k :: !Holds(env, m, "streams", k))
    || exists k :: Holds(env, m, "streams", k)
         && match m[k]
            case Nil => items == []
            case List(elems) => items == elems
            case Map(fields) => items == if fields == map[] then [] else [m[k]]
            case _ => false
  }

  ghost predicate ReadsStream(env: Env, item: Value, stream: Stream) {
    item.Map? && ReadsText(env, item.fields, "id", stream.id) && ReadsStreamData(env, item.fields, stream.dataStream)
  }

  lemma LookupHolds(env: Env, m: Config, name: string, path: string, choose: Chooser)
    requires ValidChooser(choose)
    ensures match LookupField(env, m, name, path, choose)
            case Some(k) => Holds(env, m, name, k)
            case None => forall k :: !Holds(env, m, name, k)
  {
    var keys := set k | k in m && env.equalFold(k, name);
    if name !in m && keys == {} {
      forall k ensures !Holds(env, m, name, k) { assert k !in keys; }
    }
  }

  lemma TextRead(env: Env, m: Config, name: string, prefix: string, choose: Chooser)
    requires ValidChooser(choose) && StringField(env, m, name, prefix, choose).Ok?
    ensures ReadsText(env, m, name, StringField(env, m, name, prefix, choose).value)
  {
    hide LookupField;
    LookupHolds(env, m, name, prefix + name, choose);
  }

  lemma NestedRead(env: Env, m: Config, name: string, path: string, choose: Chooser)
    requires ValidChooser(choose) && !NestedMap(env, m, name, path, choose).NotAMap?
    ensures match NestedMap(env, m, name, path, choose)
            case Found(_, fields) => ReadsNested(env, m, name, Some(fields))
            case Absent => ReadsNested(env, m, name, None)
            case NotAMap => true
  {
    hide LookupField;
    LookupHolds(env, m, name, path, choose);
  }

  lemma FlattenedRead(env: Env, m: Config, field: string, prefix: string, choose: Chooser)
    requires ValidChooser(choose)
    ensures var nested := if "data_stream" in m && m["data_stream"].Map? then m["data_stream"].fields else map[];
            var f := Flattened(env, m, "data_stream." + field, prefix, NestedValue(env, nested, field), choose);
            f.Some? ==> ReadsFlattened(env, m, field, f.value)
  {
    hide LookupField, StringValue;
    LookupHolds(env, m, "data_stream." + field, prefix + ("data_stream." + field), choose);
  }

  lemma InsideRead(env: Env, m: Config, source: Option<Struct>, prefix: string, choose: Chooser)
    requires ValidChooser(choose) && NestedDataStream(env, m, source, prefix, choose).Ok?
    ensures var ds := NestedDataStream(env, m, source, prefix, choose).value;
            ReadsInside(env, m, "dataset", ds.dataset) && ReadsInside(env, m, "type", ds.kind)
                && ReadsInside(env, m, "namespace", ds.namespace)
  {
    hide StringField, ReadsNested, ReadsText, NestedMap;
    NestedRead(env, m, "data_stream", prefix + "data_stream", choose);
    match NestedMap(env, m, "data_stream", prefix + "data_stream", choose)
    case Found(key, fields) =>
      TextRead(env, fields, "dataset", prefix + "data_stream.", choose);
      TextRead(env, fields, "type", prefix + "data_stream.", choose);
      TextRead(env, fields, "namespace", prefix + "data_stream.", choose);
    case _ =>
  }

  lemma DataStreamRead(env: Env, m: Config, source: Option<Struct>, prefix: string, choose: Chooser)
    requires ValidChooser(choose) && DataStreamField(env, m, source, prefix, choose).Ok?
    ensures ReadsStreamData(env, m, DataStreamField(env, m, source, prefix, choose).value)
  {
    hide NestedDataStream, Flattened, NestedValue, ReadsInside, ReadsFlattened;
    InsideRead(env, m, source, prefix, choose);
    FlattenedRead(env, m, "dataset", prefix, choose);
    FlattenedRead(env, m, "type", prefix, choose);
    FlattenedRead(env, m, "namespace", prefix, choose);
    assert "data_stream." + "dataset" == "data_stream.dataset";
    assert "data_stream." + "type" == "data_stream.type";
    assert "data_stream." + "namespace" == "data_stream.namespace";
  }

  lemma PackageRead(env: Env, m: Config, source: Option<Struct>, choose: Chooser)
    requires ValidChooser(choose) && MetaField(env, m, source, choose).Ok?
    ensures ReadsPackage(env, m, MetaField(env, m, source, choose).value)
  {
    hide StringField, ReadsNested, ReadsText, NestedMap;
    NestedRead(env, m, "meta", "meta", choose);
    var meta := NestedMap(env, m, "meta", "meta", choose);
    if meta.Found? {
      NestedRead(env, meta.fields, "package", "meta.package", choose);
      var package := NestedMap(env, meta.fields, "package", "meta.package", choose);
      if package.Found? {
        TextRead(env, package.fields, "name", "meta.package.", choose);
        TextRead(env, package.fields, "version", "meta.package.", choose);
      }
    }
  }

  lemma StreamItemsRead(env: Env, m: Config, source: Option<Struct>, choose: Chooser)
    requires ValidChooser(choose) && StreamItems(env, m, source, choose).Ok?
    ensures var items := StreamItems(env, m, source, choose).value;
            ReadsStreams(env, m, seq(|items|, i requires 0 <= i < |items| => items[i].0))
  {
    hide LookupField;
    LookupHolds(env, m, "streams", "streams", choose);
    var items := StreamItems(env, m, source, choose).value;
    var values := seq(|items|, i requires 0 <= i < |items| => items[i].0);
    match LookupField(env, m, "streams", "streams", choose)
    case Some(k) =>
      if m[k].List? { assert values == m[k].elems; }
      if m[k].Map? { assert m[k].fields == map[] <==> |m[k].fields| == 0; }
    case None =>
  }

  lemma StreamRead(env: Env, item: (Value, Option<Struct>), i: nat, choose: Chooser)
    requires ValidChooser(choose) && StreamOf(env, item, i, choose).Ok?
    ensures ReadsStream(env, item.0, StreamOf(env, item, i, choose).value)
  {
    hide StringField, DataStreamField, ReadsText, ReadsStreamData;
    TextRead(env, item.0.fields, "id", StreamName(env, i) + ".", choose);
    DataStreamRead(env, item.0.fields, item.1, StreamName(env, i) + ".", choose);
  }

  lemma {:induction false} StreamsRead(env: Env, items: seq<(Value, Option<Struct>)>, n: nat, choose: Chooser)
    requires ValidChooser(choose) && n <= |items| && Streams(env, items, n, choose).Ok?
    ensures var streams := Streams(env, items, n, choose).value;
            |streams| == n && forall i | 0 <= i < n :: ReadsStream(env, items[i].0, streams[i])
  {
    hide StreamOf, ReadsStream;
    if n > 0 {
      StreamsRead(env, items, n - 1, choose);
      StreamRead(env, items[n - 1], n - 1, choose);
    }
  }

  /** Every typed field is read from the configuration by name, exactly or up to case, whichever of
      several such keys is met first; flattened and nested data_stream fields do not contradict each
      other; and there is one stream per map of the streams, in order. */
  lemma FieldsRead(env: Env, cfg: Config, choose: Chooser)
    requires ValidChooser(choose) && Expected(env, cfg, choose).Ok?
    ensures var r := Expected(env, cfg, choose).value;
            && ReadsText(env, cfg, "id", r.id) && ReadsText(env, cfg, "type", r.kind)
                && ReadsText(env, cfg, "name", r.name)
            && ReadsNumber(env, cfg, "revision", r.revision) && ReadsPackage(env, cfg, r.meta)
                && ReadsStreamData(env, cfg, r.dataStream)
            && exists items :: ReadsStreams(env, cfg, items) && |items| == |r.streams|
                               && forall i | 0 <= i < |items| :: ReadsStream(env, items[i], r.streams[i])
  {
    hide StringField, MetaField, DataStreamField, StreamItems, Streams, ReadsText, ReadsPackage, ReadsStreamData,
         ReadsStreams, ReadsStream, LookupField;
    TextRead(env, cfg, "id", "", choose);
    TextRead(env, cfg, "type", "", choose);
    TextRead(env, cfg, "name", "", choose);
    LookupHolds(env, cfg, "revision", "revision", choose);
    var source := Some(Convert(env, Map(cfg)).fields);
    PackageRead(env, cfg, source, choose);
    DataStreamRead(env, cfg, source, "", choose);
    StreamItemsRead(env, cfg, source, choose);
    var items := StreamItems(env, cfg, source, choose).value;
    StreamsRead(env, items, |items|, choose);
    var values := seq(|items|, i requires 0 <= i < |items| => items[i].0);
    assert ReadsStreams(env, cfg, values);
  }

  // ---------- The typed fields are determined by the source ----------

  /** Canonical values with the same source. */
  ghost predicate Twins(env: Env, v: Value, w: Value) {
    && Canonical(env, v) && Canonical(env, w)
    && Convertible(env, v) && Convertible(env, w)
    && Convert(env, v) == Convert(env, w)
  }

  lemma TwinField(env: Env, m: Config, n: Config, k: string)
    requires Twins(env, Map(m), Map(n))
    ensures m.Keys == n.Keys
    ensures k in m ==> Twins(env, m[k], n[k])
  {
    ConvertFields(env, Map(m), Map(n));
  }

  /** On canonical maps a lookup finds the same key whatever the iteration order. */
  lemma TwinLookup(env: Env, m: Config, n: Config, name: string, path: string, c: Chooser, d: Chooser)
    requires Lawful(env) && ValidChooser(c) && ValidChooser(d) && Twins(env, Map(m), Map(n))
    ensures LookupField(env, m, name, path, c) == LookupField(env, n, name, path, d)
    ensures var k := LookupField(env, m, name, path, c);
            k.Some? ==> k.value in n && Twins(env, m[k.value], n[k.value])
  {
    TwinField(env, m, n, name);
    if name !in m {
      var keys := set k | k in m && env.equalFold(k, name);
      assert keys == set k | k in n && env.equalFold(k, name);
      if keys != {} {
        var j, k := c(path, keys), d(path, keys);
        assert env.equalFold(j, name) && env.equalFold(name, k);
        assert j == k;
        TwinField(env, m, n, k);
      }
    }
  }

  lemma TwinScalar(env: Env, v: Value, w: Value)
    requires Lawful(env) && Twins(env, v, w)
    ensures StringValue(env, v) == StringValue(env, w)
    ensures UintValue(env, v) == UintValue(env, w)
    ensures v.Map? == w.Map? && v.Nil? == w.Nil? && v.List? == w.List?
  {
    if v.Num? {
      TwinNumber(env, v.n);
      TwinNumber(env, w.n);
    }
  }

  /** A canonical number reads like the float64 it converts to. */
  lemma TwinNumber(env: Env, n: Number)
    requires Lawful(env) && CanonicalNumber(n)
    ensures NumberValue(env, n).Some?
    ensures var f := Num(Float(NumberValue(env, n).value));
            StringValue(env, Num(n)) == StringValue(env, f) && UintValue(env, Num(n)) == UintValue(env, f)
  {
    if n.Signed? {
      assert env.intToFloat(n.i) == Fin(n.i as real);
    } else if n.Unsigned? {
      assert env.intToFloat(n.u) == Fin(n.u as real);
    }
  }

  lemma TwinStringField(env: Env, m: Config, n: Config, name: string, prefix: string, c: Chooser, d: Chooser)
    requires Lawful(env) && ValidChooser(c) && ValidChooser(d) && Twins(env, Map(m), Map(n))
    ensures StringField(env, m, name, prefix, c) == StringField(env, n, name, prefix, d)
  {
    TwinLookup(env, m, n, name, prefix + name, c, d);
    var k := LookupField(env, m, name, prefix + name, c);
    if k.Some? { TwinScalar(env, m[k.value], n[k.value]); }
  }

  lemma TwinUintField(env: Env, m: Config, n: Config, name: string, c: Chooser, d: Chooser)
    requires Lawful(env) && ValidChooser(c) && ValidChooser(d) && Twins(env, Map(m), Map(n))
    ensures UintField(env, m, name, c) == UintField(env, n, name, d)
  {
    TwinLookup(env, m, n, name, name, c, d);
    var k := LookupField(env, m, name, name, c);
    if k.Some? { TwinScalar(env, m[k.value], n[k.value]); }
  }

  ghost predicate TwinNested(env: Env, a: Nested, b: Nested) {
    match a
    case Found(key, fields) => b.Found? && b.key == key && Twins(env, Map(fields), Map(b.fields))
    case _ => a == b
  }

  lemma TwinNestedMap(env: Env, m: Config, n: Config, name: string, path: string, c: Chooser, d: Chooser)
    requires Lawful(env) && ValidChooser(c) && ValidChooser(d) && Twins(env, Map(m), Map(n))
    ensures TwinNested(env, NestedMap(env, m, name, path, c), NestedMap(env, n, name, path, d))
  {
    TwinLookup(env, m, n, name, path, c, d);
    var k := LookupField(env, m, name, path, c);
    if k.Some? { TwinScalar(env, m[k.value], n[k.value]); }
  }

  lemma TwinNestedValue(env: Env, m: Config, n: Config, name: string)
    requires Lawful(env) && Twins(env, Map(m), Map(n))
    ensures NestedValue(env, m, name) == NestedValue(env, n, name)
  {
    TwinField(env, m, n, name);
    if name in m { TwinScalar(env, m[name], n[name]); }
  }

  lemma TwinFlattened(env: Env, m: Config, n: Config, key: string, prefix: string, nested: Option<string>, c: Chooser,
                      d: Chooser)
    requires Lawful(env) && ValidChooser(c) && ValidChooser(d) && Twins(env, Map(m), Map(n))
    ensures Flattened(env, m, key, prefix, nested, c) == Flattened(env, n, key, prefix, nested, d)
  {
    TwinLookup(env, m, n, key, prefix + key, c, d);
    var k := LookupField(env, m, key, prefix + key, c);
    if k.Some? { TwinScalar(env, m[k.value], n[k.value]); }
  }

  lemma TwinDataStreamFromSource(env: Env, m: Config, n: Config, prefix: string, c: Chooser, d: Chooser)
    requires Lawful(env) && ValidChooser(c) && ValidChooser(d) && Twins(env, Map(m), Map(n))
    ensures DataStreamFromSource(env, m, prefix, c) == DataStreamFromSource(env, n, prefix, d)
  {
    hide Flattened;
    TwinField(env, m, n, "data_stream");
    var a, b: Config := map[], map[];
    if "data_stream" in m {
      TwinScalar(env, m["data_stream"], n["data_stream"]);
      if m["data_stream"].Map? { a, b := m["data_stream"].fields, n["data_stream"].fields; }
    }
    TwinNestedValue(env, a, b, "dataset");
    TwinNestedValue(env, a, b, "type");
    TwinNestedValue(env, a, b, "namespace");
    TwinFlattened(env, m, n, "data_stream.dataset", prefix, NestedValue(env, a, "dataset"), c, d);
    TwinFlattened(env, m, n, "data_stream.type", prefix, NestedValue(env, a, "type"), c, d);
    TwinFlattened(env, m, n, "data_stream.namespace", prefix, NestedValue(env, a, "namespace"), c, d);
  }

  lemma TwinDataStreamField(env: Env, m: Config, n: Config, source: Option<Struct>, prefix: string, c: Chooser,
                            d: Chooser)
    requires Lawful(env) && ValidChooser(c) && ValidChooser(d) && Twins(env, Map(m), Map(n))
    ensures DataStreamField(env, m, source, prefix, c) == DataStreamField(env, n, source, prefix, d)
  {
    hide DataStreamFromSource, NestedMap, StringField;
    TwinDataStreamFromSource(env, m, n, prefix, c, d);
    TwinNestedMap(env, m, n, "data_stream", prefix + "data_stream", c, d);
    var x, y := NestedMap(env, m, "data_stream", prefix + "data_stream", c),
        NestedMap(env, n, "data_stream", prefix + "data_stream", d);
    if x.Found? {
      TwinStringField(env, x.fields, y.fields, "dataset", prefix + "data_stream.", c, d);
      TwinStringField(env, x.fields, y.fields, "type", prefix + "data_stream.", c, d);
      TwinStringField(env, x.fields, y.fields, "namespace", prefix + "data_stream.", c, d);
    }
  }

  lemma TwinMetaField(env: Env, m: Config, n: Config, source: Option<Struct>, c: Chooser, d: Chooser)
    requires Lawful(env) && ValidChooser(c) && ValidChooser(d) && Twins(env, Map(m), Map(n))
    ensures MetaField(env, m, source, c) == MetaField(env, n, source, d)
  {
    hide NestedMap, StringField;
    TwinNestedMap(env, m, n, "meta", "meta", c, d);
    var x, y := NestedMap(env, m, "meta", "meta", c), NestedMap(env, n, "meta", "meta", d);
    if x.Found? {
      TwinNestedMap(env, x.fields, y.fields, "package", "meta.package", c, d);
      var p, q := NestedMap(env, x.fields, "package", "meta.package", c),
          NestedMap(env, y.fields, "package", "meta.package", d);
      if p.Found? {
        TwinStringField(env, p.fields, q.fields, "name", "meta.package.", c, d);
        TwinStringField(env, p.fields, q.fields, "version", "meta.package.", c, d);
      }
    }
  }

  ghost predicate TwinItems(env: Env, a: seq<(Value, Option<Struct>)>, b: seq<(Value, Option<Struct>)>) {
    |a| == |b| && forall i | 0 <= i < |a| :: Twins(env, a[i].0, b[i].0) && a[i].1 == b[i].1
  }

  lemma TwinStreamItems(env: Env, m: Config, n: Config, source: Option<Struct>, c: Chooser, d: Chooser)
    requires Lawful(env) && ValidChooser(c) && ValidChooser(d) && Twins(env, Map(m), Map(n))
    ensures var a, b := StreamItems(env, m, source, c), StreamItems(env, n, source, d);
            if a.Ok? then b.Ok? && TwinItems(env, a.value, b.value) else a == b
  {
    TwinLookup(env, m, n, "streams", "streams", c, d);
    var k := LookupField(env, m, "streams", "streams", c);
    if k.Some? {
      var v, w := m[k.value], n[k.value];
      TwinScalar(env, v, w);
      if v.List? {
        ConvertElems(env, v, w);
      } else if v.Map? {
        ConvertFields(env, v, w);
        assert |v.fields| == |v.fields.Keys| && |w.fields| == |w.fields.Keys|;
      }
    }
  }

  lemma TwinStreamOf(env: Env, a: (Value, Option<Struct>), b: (Value, Option<Struct>), i: nat, c: Chooser, d: Chooser)
    requires Lawful(env) && ValidChooser(c) && ValidChooser(d) && Twins(env, a.0, b.0) && a.1 == b.1
    ensures StreamOf(env, a, i, c) == StreamOf(env, b, i, d)
  {
    hide DataStreamField, StringField;
    TwinScalar(env, a.0, b.0);
    if a.0.Map? {
      TwinStringField(env, a.0.fields, b.0.fields, "id", StreamName(env, i) + ".", c, d);
      TwinDataStreamField(env, a.0.fields, b.0.fields, a.1, StreamName(env, i) + ".", c, d);
    }
  }

  lemma {:induction false} TwinStreams(env: Env, a: seq<(Value, Option<Struct>)>, b: seq<(Value, Option<Struct>)>,
                                       n: nat, c: Chooser, d: Chooser)
    requires Lawful(env) && ValidChooser(c) && ValidChooser(d) && TwinItems(env, a, b) && n <= |a|
    ensures Streams(env, a, n, c) == Streams(env, b, n, d)
  {
    hide StreamOf;
    if n > 0 {
      TwinStreams(env, a, b, n - 1, c, d);
      TwinStreamOf(env, a[n - 1], b[n - 1], n - 1, c, d);
    }
  }

  /** Two canonical configurations with the same source have the same expected configuration, typed
      fields and errors included, in whatever order their maps are iterated. */
  lemma SourceDeterminesFields(env: Env, m: Config, n: Config, c: Chooser, d: Chooser)
    requires Lawful(env) && ValidChooser(c) && ValidChooser(d) && Twins(env, Map(m), Map(n))
    ensures Expected(env, m, c) == Expected(env, n, d)
  {
    hide StringField, UintField, MetaField, DataStreamField, StreamItems, Streams;
    var source := Some(Convert(env, Map(m)).fields);
    TwinStringField(env, m, n, "id", "", c, d);
    TwinStringField(env, m, n, "type", "", c, d);
    TwinStringField(env, m, n, "name", "", c, d);
    TwinUintField(env, m, n, "revision", c, d);
    TwinMetaField(env, m, n, source, c, d);
    TwinDataStreamField(env, m, n, source, "", c, d);
    TwinStreamItems(env, m, n, source, c, d);
    var a, b := StreamItems(env, m, source, c), StreamItems(env, n, source, d);
    if a.Ok? { TwinStreams(env, a.value, b.value, |a.value|, c, d); }
  }

  // ---------- Nested sources are conversions of the nested maps ----------

  ghost predicate IsSourceOf(env: Env, source: Option<Struct>, v: Value) {
    Convertible(env, v) && source.Some? && Convert(env, v) == PStruct(source.value)
  }

  lemma NestedSource(env: Env, m: Config, source: Option<Struct>, key: string)
    requires IsSourceOf(env, source, Map(m)) && key in m && m[key].Map?
    ensures IsSourceOf(env, FieldStruct(source, key), m[key])
  {
    assert source.value[key] == Convert(env, m[key]);
  }

  lemma {:induction false} StreamSources(env: Env, items: seq<(Value, Option<Struct>)>, n: nat, choose: Chooser, i: nat)
    requires ValidChooser(choose) && i < n <= |items| && Streams(env, items, n, choose).Ok?
    ensures var streams := Streams(env, items, n, choose).value;
            |streams| == n && streams[i].source == items[i].1 && items[i].0.Map?
    decreases n
  {
    hide DataStreamField, StringField;
    if i < n - 1 {
      StreamSources(env, items, n - 1, choose, i);
    } else if n > 1 {
      StreamSources(env, items, n - 1, choose, n - 2);
    }
  }

  /** The sources of meta, package, data_stream and every stream are the conversions of the maps
      those messages were read from, although the configuration is converted only once. */
  lemma NestedSourcesAreConversions(env: Env, cfg: Config, choose: Chooser)
    requires ValidChooser(choose) && Expected(env, cfg, choose).Ok?
    ensures var r := Expected(env, cfg, choose).value;
            && IsSourceOf(env, Some(r.source), Map(cfg))
            && var meta := NestedMap(env, cfg, "meta", "meta", choose);
            && (meta.Found? <==> r.meta.Some?)
            && (meta.Found? ==> IsSourceOf(env, r.meta.value.source, Map(meta.fields)))
            && (meta.Found? ==>
                  var package := NestedMap(env, meta.fields, "package", "meta.package", choose);
                  && (package.Found? <==> r.meta.value.package.Some?)
                  && (package.Found? ==> IsSourceOf(env, r.meta.value.package.value.source, Map(package.fields))))
            && var ds := NestedMap(env, cfg, "data_stream", "data_stream", choose);
            && (if ds.Found? then IsSourceOf(env, r.dataStream.source, Map(ds.fields)) else r.dataStream.source.None?)
            && var items := StreamItems(env, cfg, Some(r.source), choose);
            && items.Ok? && |r.streams| == |items.value|
            && forall i | 0 <= i < |r.streams| :: IsSourceOf(env, r.streams[i].source, items.value[i].0)
  {
    hide StringField, UintField, Streams, StreamOf, NestedMap, DataStreamFromSource;
    var r := Expected(env, cfg, choose).value;
    var source := Some(r.source);
    var meta := NestedMap(env, cfg, "meta", "meta", choose);
    if meta.Found? {
      NestedSource(env, cfg, source, meta.key);
      var package := NestedMap(env, meta.fields, "package", "meta.package", choose);
      if package.Found? {
        NestedSource(env, meta.fields, r.meta.value.source, package.key);
      }
    }
    assert "" + "data_stream" == "data_stream";
    var ds := NestedMap(env, cfg, "data_stream", "data_stream", choose);
    if ds.Found? {
      NestedSource(env, cfg, source, ds.key);
    }
    var items := StreamItems(env, cfg, source, choose).value;
    if items != [] {
      StreamSources(env, items, |items|, choose, 0);
    } else {
      EmptyStreams(env, items, choose);
      assert r.streams == [];
    }
    forall i | 0 <= i < |r.streams|
      ensures IsSourceOf(env, r.streams[i].source, items[i].0)
    {
      StreamSources(env, items, |items|, choose, i);
      ItemSource(env, cfg, source, choose, i);
    }
  }

  lemma EmptyStreams(env: Env, items: seq<(Value, Option<Struct>)>, choose: Chooser)
    requires ValidChooser(choose)
    ensures Streams(env, items, 0, choose) == Ok([])
  {}

  lemma ItemSource(env: Env, m: Config, source: Option<Struct>, choose: Chooser, i: nat)
    requires ValidChooser(choose) && IsSourceOf(env, source, Map(m))
    requires StreamItems(env, m, source, choose).Ok? && i < |StreamItems(env, m, source, choose).value|
    requires StreamItems(env, m, source, choose).value[i].0.Map?
    ensures var item := StreamItems(env, m, source, choose).value[i]; IsSourceOf(env, item.1, item.0)
  {
    var k := LookupField(env, m, "streams", "streams", choose).value;
    assert Convertible(env, m[k]) && source.value[k] == Convert(env, m[k]);
    match m[k]
    case List(elems) => ElemSource(env, m[k], i);
    case Map(fields) => NestedSource(env, m, source, k);
  }

  lemma ElemSource(env: Env, v: Value, i: nat)
    requires v.List? && Convertible(env, v) && i < |v.elems|
    ensures Convertible(env, v.elems[i]) && Convert(env, v).PList?
    ensures i < |Convert(env, v).elems| && Convert(env, v).elems[i] == Convert(env, v.elems[i])
  {}
}
