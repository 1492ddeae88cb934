/** Parsing a policy held in Go maps. Maps are references: nested ones are shared with the policy, and
    the parsing steps delete and insert keys. None of the methods below may modify an object that
    existed before, except a clone handed to it; so the policy keeps its value. */
module PolicyParsing {
  import opened Values
  import opened Components
  import opened PolicySpec

  /** A map[string]interface{}. */
  class GoMap {
    var m: map<string, GoVal>

    constructor (m: map<string, GoVal>)
      ensures this.m == m
    {
      this.m := m;
    }
  }

  datatype GoVal =
    | GoNil
    | GoBool(b: bool)
    | GoNum(n: Number)
    | GoStr(s: string)
    | GoBytes(s: string)
    | GoObj(o: GoMap)
    | GoList(elems: seq<GoVal>)
    | GoOther

  /** The value is a tree of depth at most d over the maps of a set. */
  ghost predicate Tree(v: GoVal, d: nat, maps: set<GoMap>)
    reads maps
    decreases 2 * d, v
  {
    match v
    case GoObj(o) => d > 0 && o in maps && TreeFields(o.m, d - 1, maps)
    case GoList(elems) => forall i | 0 <= i < |elems| :: Tree(elems[i], d, maps)
    case _ => true
  }

  ghost predicate TreeFields(m: map<string, GoVal>, d: nat, maps: set<GoMap>)
    reads maps
    decreases 2 * d + 1
  {
    forall k | k in m :: Tree(m[k], d, maps)
  }

  /** The value read through the references. */
  function Snapshot(v: GoVal, ghost d: nat, ghost maps: set<GoMap>): Value
    requires Tree(v, d, maps)
    reads maps
    decreases 2 * d, v
  {
    match v
    case GoNil => Nil
    case GoBool(b) => Bool(b)
    case GoNum(n) => Num(n)
    case GoStr(s) => Str(s)
    case GoBytes(s) => Bytes(s)
    case GoObj(o) => Map(SnapshotFields(o.m, d - 1, maps))
    case GoList(elems) => List(SnapshotElems(elems, d, maps))
    case GoOther => Other
  }

  function SnapshotElems(elems: seq<GoVal>, ghost d: nat, ghost maps: set<GoMap>): (vs: seq<Value>)
    requires forall i | 0 <= i < |elems| :: Tree(elems[i], d, maps)
    reads maps
    ensures |vs| == |elems| && forall i | 0 <= i < |elems| :: vs[i] == Snapshot(elems[i], d, maps)
    decreases 2 * d, elems
  {
    if elems == [] then [] else [Snapshot(elems[0], d, maps)] + SnapshotElems(elems[1..], d, maps)
  }

  function SnapshotFields(m: map<string, GoVal>, ghost d: nat, ghost maps: set<GoMap>): Config
    requires TreeFields(m, d, maps)
    reads maps
    decreases 2 * d + 1
  {
    map k | k in m :: Snapshot(m[k], d, maps)
  }

  /** More maps and more depth change nothing. */
  lemma {:induction false} SnapshotGrows(v: GoVal, d: nat, maps: set<GoMap>, d': nat, maps': set<GoMap>)
    requires Tree(v, d, maps) && d <= d' && maps <= maps'
    ensures Tree(v, d', maps') && Snapshot(v, d', maps') == Snapshot(v, d, maps)
    decreases 2 * d, v
  {
    match v
    case GoObj(o) => SnapshotFieldsGrow(o.m, d - 1, maps, d' - 1, maps');
    case GoList(elems) =>
      forall i | 0 <= i < |elems|
        ensures Tree(elems[i], d', maps') && Snapshot(elems[i], d', maps') == Snapshot(elems[i], d, maps)
      {
        SnapshotGrows(elems[i], d, maps, d', maps');
      }
    case _ =>
  }

  lemma {:induction false} SnapshotFieldsGrow(m: map<string, GoVal>, d: nat, maps: set<GoMap>, d': nat,
                                              maps': set<GoMap>)
    requires TreeFields(m, d, maps) && d <= d' && maps <= maps'
    ensures TreeFields(m, d', maps') && SnapshotFields(m, d', maps') == SnapshotFields(m, d, maps)
    decreases 2 * d + 1
  {
    forall k | k in m ensures Tree(m[k], d', maps') && Snapshot(m[k], d', maps') == Snapshot(m[k], d, maps) {
      SnapshotGrows(m[k], d, maps, d', maps');
    }
  }

  lemma SnapshotWithout(m: map<string, GoVal>, ks: set<string>, d: nat, maps: set<GoMap>)
    requires TreeFields(m, d, maps)
    ensures TreeFields(m - ks, d, maps) && SnapshotFields(m - ks, d, maps) == SnapshotFields(m, d, maps) - ks
  {}

  lemma SnapshotWith(m: map<string, GoVal>, k: string, v: GoVal, d: nat, maps: set<GoMap>)
    requires TreeFields(m, d, maps) && Tree(v, d, maps)
    ensures TreeFields(m[k := v], d, maps)
            && SnapshotFields(m[k := v], d, maps) == SnapshotFields(m, d, maps)[k := Snapshot(v, d, maps)]
  {}

  /** maps.Clone: a new map with the same, shared, values. */
  method Clone(o: GoMap) returns (c: GoMap)
    ensures fresh(c) && c.m == o.m
  {
    c := new GoMap(o.m);
  }

  // ---------- Steps on a cloned map ----------

  /** getLogLevel consumes the level of the map it is given. */
  method GetLogLevel(pc: ParseContext, val: GoMap, ghost d: nat, ghost maps: set<GoMap>)
    returns (r: Result<LogLevel, Problem>)
    requires val !in maps && TreeFields(val.m, d, maps)
    modifies val
    ensures r == LogLevelIn(pc, old(SnapshotFields(val.m, d, maps)))
    ensures r.Ok? ==> val.m == old(val.m) - {"log_level"}
  {
    var agent := LevelOf(pc, pc.agentLevel);
    if agent.None? { return Err(BadLogLevel); }
    r := Ok(agent.value);
    if "log_level" in val.m {
      match val.m["log_level"]
      case GoStr(s) =>
        var level := LevelOf(pc, s);
        if level.None? { return Err(BadLogLevel); }
        r := Ok(level.value);
      case _ => return Err(BadLogLevel);
    }
    val.m := val.m - {"log_level"};
  }

  /** The enabled flag, consumed from the map it is given. */
  method TakeEnabled(val: GoMap, ghost d: nat, ghost maps: set<GoMap>) returns (r: Result<bool, Problem>)
    requires val !in maps && TreeFields(val.m, d, maps)
    modifies val
    ensures r == EnabledIn(old(SnapshotFields(val.m, d, maps)))
    ensures r.Ok? ==> val.m == old(val.m) - {"enabled"}
  {
    r := Ok(true);
    if "enabled" in val.m {
      match val.m["enabled"]
      case GoBool(b) => r := Ok(b);
      case _ => return Err(EnabledNotABool);
    }
    val.m := val.m - {"enabled"};
  }

  method TypeOfMap(val: GoMap, ghost d: nat, ghost maps: set<GoMap>) returns (r: Result<string, Problem>)
    requires TreeFields(val.m, d, maps)
    ensures r == TypeIn(SnapshotFields(val.m, d, maps))
  {
    if "type" !in val.m { return Err(TypeMissing); }
    match val.m["type"]
    case GoStr(t) => return Ok(t);
    case _ => return Err(TypeNotAString);
  }

  /** The agent's headers are set in a map unless it has them. */
  method AddHeaders(pc: ParseContext, headers: GoMap)
    modifies headers
    ensures headers.m == AgentHeaders(pc) + old(headers.m)
  {
    var todo := pc.headers.Keys;
    while todo != {}
      invariant todo <= pc.headers.Keys
      invariant forall h :: h in headers.m <==> h in old(headers.m) || (h in pc.headers && h !in todo)
      invariant forall h | h in old(headers.m) :: headers.m[h] == old(headers.m)[h]
      invariant forall h | h in headers.m && h !in old(headers.m) :: headers.m[h] == GoStr(pc.headers[h])
      decreases |todo|
    {
      var h :| h in todo;
      if h !in headers.m {
        headers.m := headers.m[h := GoStr(pc.headers[h])];
      }
      todo := todo - {h};
    }
  }

  function AgentHeaders(pc: ParseContext): map<string, GoVal> {
    map h | h in pc.headers :: GoStr(pc.headers[h])
  }

  /** The injection of enrolment headers: existing headers are cloned before they are extended. */
  method InjectHeaders(pc: ParseContext, t: string, config: GoMap, ghost d: nat, ghost maps: set<GoMap>)
    returns (r: Result<bool, Problem>, ghost maps': set<GoMap>)
    requires config !in maps && TreeFields(config.m, d, maps)
    modifies config
    ensures maps <= maps' && config !in maps' && fresh(maps' - maps)
    ensures match WithHeaders(pc, t, old(SnapshotFields(config.m, d, maps)))
            case Err(e) => r == Err(e)
            case Ok(c) =>
              && r == Ok(true) && TreeFields(config.m, d + 1, maps')
              && SnapshotFields(config.m, d + 1, maps') == c
  {
    hide Snapshot, SnapshotFields, Tree, TreeFields;
    maps' := maps;
    SnapshotFieldsGrow(config.m, d, maps, d + 1, maps);
    SnapshotKeys(config.m, d, maps);
    if t != "elasticsearch" || pc.headers == map[] { return Ok(true), maps'; }
    var headers := new GoMap(map[]);
    if "headers" in config.m {
      match config.m["headers"]
      case GoObj(own) => headers := Clone(own);
      case _ => return Err(HeadersNotAMap), maps';
    }
    ghost var own := headers.m;
    if "headers" in config.m { ObjTree(config.m, "headers", d, maps); } else { EmptySnapshot(d, maps); }
    AddHeaders(pc, headers);
    maps' := maps + {headers};
    PutHeaders(pc, config.m, own, headers, d, maps);
    assert HeaderValues(pc) + map[] == HeaderValues(pc);
    ghost var after := config.m["headers" := GoObj(headers)];
    ghost var value := SnapshotFields(after, d + 1, maps');
    assert WithHeaders(pc, t, old(SnapshotFields(config.m, d, maps))) == Ok(value);
    config.m := config.m["headers" := GoObj(headers)];
    assert SnapshotFields(after, d + 1, maps') == value;
    r := Ok(true);
  }

  lemma EmptySnapshot(d: nat, maps: set<GoMap>)
    ensures TreeFields(map[], d, maps) && SnapshotFields(map[], d, maps) == map[]
  {}

  /** Snapshots keep keys and the kinds of values. */
  lemma SnapshotKeys(m: map<string, GoVal>, d: nat, maps: set<GoMap>)
    requires TreeFields(m, d, maps)
    ensures SnapshotFields(m, d, maps).Keys == m.Keys
    ensures forall k | k in m ::
              var v := SnapshotFields(m, d, maps)[k];
              && (m[k].GoObj? <==> v.Map?) && (m[k].GoNil? <==> v.Nil?)
              && (m[k].GoStr? <==> v.Str?) && (m[k].GoStr? ==> v.s == m[k].s)
  {}

  lemma PutHeaders(pc: ParseContext, m: map<string, GoVal>, own: map<string, GoVal>, headers: GoMap, d: nat,
                   maps: set<GoMap>)
    requires TreeFields(m, d, maps) && TreeFields(own, d, maps) && headers.m == AgentHeaders(pc) + own
    ensures var maps' := maps + {headers};
            TreeFields(m["headers" := GoObj(headers)], d + 1, maps')
            && SnapshotFields(m["headers" := GoObj(headers)], d + 1, maps')
               == SnapshotFields(m, d, maps)["headers" := Map(HeaderValues(pc) + SnapshotFields(own, d, maps))]
  {
    var maps' := maps + {headers};
    HeadersSnapshot(pc, own, headers.m, d, maps, maps');
    SnapshotFieldsGrow(m, d, maps, d + 1, maps');
    SnapshotWith(m, "headers", GoObj(headers), d + 1, maps');
  }

  lemma HeadersSnapshot(pc: ParseContext, own: map<string, GoVal>, all: map<string, GoVal>, d: nat, maps: set<GoMap>,
                        maps': set<GoMap>)
    requires TreeFields(own, d, maps) && maps <= maps' && all == AgentHeaders(pc) + own
    ensures TreeFields(all, d, maps')
            && SnapshotFields(all, d, maps') == HeaderValues(pc) + SnapshotFields(own, d, maps)
  {
    SnapshotFieldsGrow(own, d, maps, d, maps');
  }

  // ---------- Outputs ----------

  /** ParseOutput edits the map it is given, a clone. */
  method ParseOutput(pc: ParseContext, name: string, config: GoMap, ghost d: nat, ghost maps: set<GoMap>)
    returns (r: Result<OutputI, Problem>)
    requires config !in maps && TreeFields(config.m, d, maps)
    modifies config
    ensures r == ParseOutputOf(pc, name, old(SnapshotFields(config.m, d, maps)))
  {
    hide Snapshot, SnapshotFields, Tree, TreeFields, WithHeaders;
    ghost var m := config.m;
    ghost var value := SnapshotFields(m, d, maps);
    SnapshotWithout(m, {"enabled"}, d, maps);
    SnapshotWithout(m, {"enabled", "log_level"}, d, maps);
    var t := TypeOfMap(config, d, maps);
    if t.Err? { return Err(t.error); }
    var enabled := TakeEnabled(config, d, maps);
    if enabled.Err? { return Err(enabled.error); }
    var level := GetLogLevel(pc, config, d, maps);
    assert level == LogLevelIn(pc, value);
    if level.Err? { return Err(level.error); }
    assert config.m == m - {"enabled", "log_level"};
    var injected, maps' := InjectHeaders(pc, t.value, config, d, maps);
    if injected.Err? { return Err(injected.error); }
    r := Ok(OutputI(name, enabled.value, level.value, t.value, SnapshotFields(config.m, d + 1, maps'), map[]));
  }

  lemma TreeAt(m: map<string, GoVal>, k: string, d: nat, maps: set<GoMap>)
    requires TreeFields(m, d, maps) && k in m
    ensures Tree(m[k], d, maps) && k in SnapshotFields(m, d, maps)
            && SnapshotFields(m, d, maps)[k] == Snapshot(m[k], d, maps)
  {}

  method ParseOneOutput(pc: ParseContext, name: string, v: GoVal, ghost d: nat, ghost maps: set<GoMap>)
    returns (r: Result<OutputI, Problem>)
    requires Tree(v, d, maps)
    ensures r == ParseOutputValue(pc, name, Snapshot(v, d, maps))
  {
    hide SnapshotFields, TreeFields, ParseOutputOf;
    match v
    case GoObj(o) =>
      var config := Clone(o);
      r := ParseOutput(pc, name, config, d - 1, maps);
    case _ => r := Err(NotAMap);
  }

  /** The outputs loop: every output is parsed from a clone of its map. */
  method ParseOutputs(pc: ParseContext, outputs: GoMap, ghost d: nat, ghost maps: set<GoMap>)
    returns (r: Result<map<string, OutputI>, PolicyError>)
    requires TreeFields(outputs.m, d, maps)
    ensures match r
            case Ok(os) => ParsedOutputs(pc, SnapshotFields(outputs.m, d, maps), os)
            case Err(e) => e.OutputError? && BadOutput(pc, SnapshotFields(outputs.m, d, maps), e.name, e.what)
  {
    hide Snapshot, SnapshotFields, Tree, TreeFields, ParseOutputValue;
    ghost var value := SnapshotFields(outputs.m, d, maps);
    SnapshotKeys(outputs.m, d, maps);
    var todo := outputs.m.Keys;
    var os: map<string, OutputI> := map[];
    while todo != {}
      invariant todo <= outputs.m.Keys && os.Keys == outputs.m.Keys - todo
      invariant forall name | name in os :: ParseOutputValue(pc, name, value[name]) == Ok(os[name])
      decreases |todo|
    {
      var name :| name in todo;
      TreeAt(outputs.m, name, d, maps);
      var output := ParseOneOutput(pc, name, outputs.m[name], d, maps);
      if output.Err? { return Err(OutputError(name, output.error)); }
      os := os[name := output.value];
      todo := todo - {name};
    }
    r := Ok(os);
  }

  // ---------- Inputs ----------

  /** injectInputPolicyID: an existing policy section is cloned before it is extended. */
  method InjectInputPolicyId(revision: Option<GoVal>, input: GoMap, ghost d: nat, ghost maps: set<GoMap>)
    returns (ghost maps': set<GoMap>)
    requires input !in maps && TreeFields(input.m, d, maps) && (revision.Some? ==> Tree(revision.value, d, maps))
    modifies input
    ensures maps <= maps' && input !in maps' && fresh(maps' - maps) && TreeFields(input.m, d + 1, maps')
    ensures SnapshotFields(input.m, d + 1, maps')
            == WithPolicyId(RevisionValue(revision, d, maps), old(SnapshotFields(input.m, d, maps)))
  {
    hide Snapshot, SnapshotFields, Tree, TreeFields;
    maps' := maps;
    SnapshotFieldsGrow(input.m, d, maps, d + 1, maps);
    SnapshotKeys(input.m, d, maps);
    if revision.None? { return; }
    var section: GoMap;
    if "policy" in input.m && !input.m["policy"].GoNil? {
      match input.m["policy"]
      case GoObj(o) =>
        ObjTree(input.m, "policy", d, maps);
        section := Clone(o);
      case _ => return;
    } else {
      EmptySnapshot(d, maps);
      section := new GoMap(map[]);
    }
    ghost var own := section.m;
    section.m := section.m["revision" := revision.value];
    maps' := maps + {section};
    PutSection(input.m, "policy", own, "revision", revision.value, section, d, maps);
    ghost var after := input.m["policy" := GoObj(section)];
    ghost var value := SnapshotFields(after, d + 1, maps');
    assert WithPolicyId(RevisionValue(revision, d, maps), old(SnapshotFields(input.m, d, maps))) == value;
    input.m := input.m["policy" := GoObj(section)];
    assert SnapshotFields(after, d + 1, maps') == value;
  }

  ghost function RevisionValue(revision: Option<GoVal>, d: nat, maps: set<GoMap>): Option<Value>
    requires revision.Some? ==> Tree(revision.value, d, maps)
    reads maps
  {
    match revision
    case None => None
    case Some(v) => Some(Snapshot(v, d, maps))
  }

  lemma ObjTree(m: map<string, GoVal>, k: string, d: nat, maps: set<GoMap>)
    requires TreeFields(m, d, maps) && k in m && m[k].GoObj?
    ensures m[k].o in maps && TreeFields(m[k].o.m, d, maps)
    ensures SnapshotFields(m, d, maps)[k] == Map(SnapshotFields(m[k].o.m, d, maps))
  {
    assert Tree(m[k], d, maps);
    SnapshotFieldsGrow(m[k].o.m, d - 1, maps, d, maps);
  }

  lemma PutSection(m: map<string, GoVal>, k: string, own: map<string, GoVal>, key: string, v: GoVal, section: GoMap,
                   d: nat, maps: set<GoMap>)
    requires TreeFields(m, d, maps) && TreeFields(own, d, maps) && Tree(v, d, maps) && section.m == own[key := v]
    ensures var maps' := maps + {section};
            TreeFields(m[k := GoObj(section)], d + 1, maps')
            && SnapshotFields(m[k := GoObj(section)], d + 1, maps')
               == SnapshotFields(m, d, maps)[k := Map(SnapshotFields(own, d, maps)[key := Snapshot(v, d, maps)])]
  {
    var maps' := maps + {section};
    SnapshotWith(own, key, v, d, maps);
    SnapshotFieldsGrow(section.m, d, maps, d, maps');
    SnapshotFieldsGrow(m, d, maps, d + 1, maps');
    SnapshotWith(m, k, GoObj(section), d + 1, maps');
  }
}
