/** From a policy to its component model: the inputs loop, toIntermediate, PolicyToComponents and
    ToComponents. Only the clones made of the inputs and the cache of unit configurations are modified, so
    the policy is left as it was. */
module PolicyModel {
  import opened Values
  import opened Listing
  import opened Components
  import opened ComponentModel
  import opened ComponentConservation
  import opened UnitIdentity
  import opened PolicySpec
  import opened PolicyParsing

  /** hasDuplicate, a search through the inputs parsed so far. */
  method FindDuplicate(outputs: map<string, OutputI>, id: string) returns (found: bool)
    ensures found <==> HasDuplicate(outputs, id)
  {
    var names := outputs.Keys;
    while names != {}
      invariant names <= outputs.Keys
      invariant forall name | name in outputs && name !in names :: !HoldsId(outputs[name], id)
      decreases |names|
    {
      var name :| name in names;
      var holds := FindInOutput(outputs[name], id);
      if holds { return true; }
      names := names - {name};
    }
    found := false;
  }

  method FindInOutput(output: OutputI, id: string) returns (found: bool)
    ensures found <==> HoldsId(output, id)
  {
    var types := output.inputs.Keys;
    while types != {}
      invariant types <= output.inputs.Keys
      invariant forall t, i | t in output.inputs && t !in types && 0 <= i < |output.inputs[t]| ::
                output.inputs[t][i].id != id
      decreases |types|
    {
      var t :| t in types;
      for i := 0 to |output.inputs[t]|
        invariant forall j | 0 <= j < i :: output.inputs[t][j].id != id
      {
        if output.inputs[t][i].id == id { return true; }
      }
      types := types - {t};
    }
    found := false;
  }

  /** A string field with a default, consumed from the map. */
  method TakeUseOutput(val: GoMap, ghost d: nat, ghost maps: set<GoMap>) returns (r: Result<string, Problem>)
    requires val !in maps && TreeFields(val.m, d, maps)
    modifies val
    ensures r == UseOutputIn(old(SnapshotFields(val.m, d, maps)))
    ensures r.Ok? ==> val.m == old(val.m) - {"use_output"}
  {
    r := Ok("default");
    if "use_output" in val.m {
      match val.m["use_output"]
      case GoStr(s) => r := Ok(s);
      case _ => return Err(UseOutputNotAString);
    }
    val.m := val.m - {"use_output"};
  }

  method TakeRuntime(val: GoMap, ghost d: nat, ghost maps: set<GoMap>) returns (r: Result<string, Problem>)
    requires val !in maps && TreeFields(val.m, d, maps)
    modifies val
    ensures r == RuntimeIn(old(SnapshotFields(val.m, d, maps)))
    ensures r.Ok? ==> val.m == old(val.m) - {"_runtime_experimental"}
  {
    r := Ok("");
    if "_runtime_experimental" in val.m {
      match val.m["_runtime_experimental"]
      case GoStr(s) =>
        if s != OTEL && s != PROCESS { return Err(BadRuntime); }
        r := Ok(s);
      case _ => return Err(RuntimeNotAString);
    }
    val.m := val.m - {"_runtime_experimental"};
  }

  method IdOfMap(val: GoMap, t: string, ghost d: nat, ghost maps: set<GoMap>) returns (r: Result<string, Problem>)
    requires TreeFields(val.m, d, maps)
    ensures r == IdIn(SnapshotFields(val.m, d, maps), t)
  {
    if "id" !in val.m { return Ok(t); }
    match val.m["id"]
    case GoStr(s) => return Ok(s);
    case _ => return Err(IdNotAString);
  }

  /** Removing the keys read before does not change what is read. */
  lemma KeysAreSeparate(pc: ParseContext, m: Config)
    ensures EnabledIn(m - {"use_output"}) == EnabledIn(m)
    ensures LogLevelIn(pc, m - {"use_output", "enabled"}) == LogLevelIn(pc, m)
    ensures RuntimeIn(m - {"use_output", "enabled", "log_level"}) == RuntimeIn(m)
  {}

  /** Reading and removing the keys an input does not keep. */
  method Take(pc: ParseContext, known: set<string>, val: GoMap, ghost d: nat, ghost maps: set<GoMap>)
    returns (r: Result<Taken, Problem>)
    requires val !in maps && TreeFields(val.m, d, maps)
    modifies val
    ensures r == TakenFrom(pc, known, old(SnapshotFields(val.m, d, maps)))
    ensures r.Ok? ==> val.m == old(val.m) - CONSUMED
  {
    hide Snapshot, SnapshotFields, Tree, TreeFields, LogLevelIn, EnabledIn, UseOutputIn, RuntimeIn;
    ghost var m := val.m;
    ghost var value := SnapshotFields(m, d, maps);
    KeysAreSeparate(pc, value);
    SnapshotWithout(m, {"use_output"}, d, maps);
    SnapshotWithout(m, {"use_output", "enabled"}, d, maps);
    SnapshotWithout(m, {"use_output", "enabled", "log_level"}, d, maps);
    var name := TakeUseOutput(val, d, maps);
    if name.Err? { return Err(name.error); }
    if name.value !in known { return Err(UnknownOutput); }
    var enabled := TakeEnabled(val, d, maps);
    if enabled.Err? { return Err(enabled.error); }
    assert val.m == m - {"use_output", "enabled"};
    var level := GetLogLevel(pc, val, d, maps);
    if level.Err? { return Err(level.error); }
    assert val.m == m - {"use_output", "enabled", "log_level"};
    var manager := TakeRuntime(val, d, maps);
    if manager.Err? { return Err(manager.error); }
    assert val.m == m - CONSUMED;
    r := Ok(Taken(name.value, enabled.value, level.value, manager.value));
  }

  lemma TypeChangesNothing(pc: ParseContext, known: set<string>, raw: string, m: Config)
    ensures TakenFrom(pc, known, Aliased(pc, raw, m)) == TakenFrom(pc, known, m)
  {}

  /** The type of an input, aliases replaced in its map, and its ID. */
  method TypeAndId(pc: ParseContext, val: GoMap, ghost d: nat, ghost maps: set<GoMap>)
    returns (r: Result<(string, string), Problem>)
    requires val !in maps && TreeFields(val.m, d, maps)
    modifies val
    ensures TreeFields(val.m, d, maps)
    ensures var m := old(SnapshotFields(val.m, d, maps));
            match TypeIn(m)
            case Err(e) => r == Err(e)
            case Ok(raw) =>
              SnapshotFields(val.m, d, maps) == Aliased(pc, raw, m)
              && match IdIn(m, RealType(pc, raw))
                 case Err(e) => r == Err(e)
                 case Ok(id) => r == Ok((RealType(pc, raw), id))
  {
    hide Snapshot, SnapshotFields, Tree, TreeFields;
    ghost var m, value := val.m, SnapshotFields(val.m, d, maps);
    var raw := TypeOfMap(val, d, maps);
    if raw.Err? { return Err(raw.error); }
    var t := RealType(pc, raw.value);
    StrSnapshot(t, d, maps);
    SnapshotWith(m, "type", GoStr(t), d, maps);
    if raw.value in pc.aliases { val.m := val.m["type" := GoStr(t)]; }
    var id := IdOfMap(val, t, d, maps);
    if id.Err? { return Err(id.error); }
    r := Ok((t, id.value));
  }

  /** One input of the policy, parsed from a clone of its map. */
  method ParseInput(pc: ParseContext, outputs: map<string, OutputI>, revision: Option<GoVal>, idx: nat, input: GoMap,
                    ghost plan: seq<Parsed>, ghost d: nat, ghost maps: set<GoMap>) returns (r: Result<Parsed, Problem>)
    requires TreeFields(input.m, d, maps) && (revision.Some? ==> Tree(revision.value, d, maps))
             && Consistent(outputs, plan)
    ensures r == ParseInputOf(pc, outputs.Keys, Ids(plan), RevisionValue(revision, d, maps), idx,
            SnapshotFields(input.m, d, maps))
  {
    hide Snapshot, SnapshotFields, Tree, TreeFields, TakenFrom, WithPolicyId, Consistent, HasDuplicate, TypeIn, IdIn,
         RealType, Aliased;
    ghost var value := SnapshotFields(input.m, d, maps);
    var val := Clone(input);
    var head := TypeAndId(pc, val, d, maps);
    if head.Err? { return Err(head.error); }
    var t, id := head.value.0, head.value.1;
    var used := FindDuplicate(outputs, id);
    DuplicateIsUsed(outputs, plan, id);
    if used { return Err(DuplicateId); }
    TypeChangesNothing(pc, outputs.Keys, TypeIn(value).value, value);
    SnapshotWithout(val.m, CONSUMED, d, maps);
    var taken := Take(pc, outputs.Keys, val, d, maps);
    if taken.Err? { return Err(taken.error); }
    var maps' := InjectInputPolicyId(revision, val, d, maps);
    r := Ok(Parsed(taken.value.output,
                   InputI(idx, id, taken.value.enabled, taken.value.level, t, taken.value.manager,
                          id in pc.dynamicInputs, SnapshotFields(val.m, d + 1, maps'))));
  }

  lemma StrSnapshot(t: string, d: nat, maps: set<GoMap>)
    ensures Tree(GoStr(t), d, maps) && Snapshot(GoStr(t), d, maps) == Str(t)
  {}

  lemma ElemTree(elems: seq<GoVal>, i: nat, d: nat, maps: set<GoMap>)
    requires i < |elems| && elems[i].GoObj? && forall j | 0 <= j < |elems| :: Tree(elems[j], d, maps)
    ensures elems[i].o in maps && TreeFields(elems[i].o.m, d, maps)
    ensures SnapshotElems(elems, d, maps)[i] == Map(SnapshotFields(elems[i].o.m, d, maps))
  {
    assert Tree(elems[i], d, maps);
    SnapshotFieldsGrow(elems[i].o.m, d - 1, maps, d, maps);
  }

  lemma NotObj(elems: seq<GoVal>, i: nat, d: nat, maps: set<GoMap>)
    requires i < |elems| && !elems[i].GoObj? && forall j | 0 <= j < |elems| :: Tree(elems[j], d, maps)
    ensures !SnapshotElems(elems, d, maps)[i].Map?
  {}

  lemma AddToSame(outputs: map<string, OutputI>, os: map<string, OutputI>, p: Parsed)
    requires SameOutputs(outputs, os) && p.output in os
    ensures SameOutputs(outputs, AddTo(os, p)) && AddTo(os, p).Keys == os.Keys
    ensures NoEmptyTypes(os) ==> NoEmptyTypes(AddTo(os, p))
  {}

  /** The inputs loop: each input is added to its output, and the first bad one ends it. */
  method ParseInputs(pc: ParseContext, outputs: map<string, OutputI>, revision: Option<GoVal>, inputs: seq<GoVal>,
                     ghost d: nat, ghost maps: set<GoMap>)
    returns (r: Result<map<string, OutputI>, PolicyError>, ghost plan: seq<Parsed>)
    requires (forall j | 0 <= j < |inputs| :: Tree(inputs[j], d, maps))
             && (revision.Some? ==> Tree(revision.value, d, maps))
    requires Consistent(outputs, []) && NoEmptyTypes(outputs)
    ensures match PlanOf(pc, outputs.Keys, RevisionValue(revision, d, maps), SnapshotElems(inputs, d, maps), |inputs|)
            case Err(e) => r == Err(e)
            case Ok(p) => r.Ok? && Consistent(r.value, p) && NoEmptyTypes(r.value) && SameOutputs(outputs, r.value)
    ensures r.Ok? ==> PlanOf(pc, outputs.Keys, RevisionValue(revision, d, maps), SnapshotElems(inputs, d, maps),
            |inputs|) == Ok(plan)
  {
    hide Snapshot, SnapshotFields, Tree, TreeFields, ParseInputOf, Consistent, AddTo, SnapshotElems, SameOutputs,
         NoEmptyTypes;
    ghost var rev, elems := RevisionValue(revision, d, maps), SnapshotElems(inputs, d, maps);
    ghost var known := outputs.Keys;
    var os := outputs;
    plan := [];
    SameItself(outputs);
    for i := 0 to |inputs|
      invariant Consistent(os, plan) && NoEmptyTypes(os) && SameOutputs(outputs, os) && os.Keys == known
      invariant PlanOf(pc, known, rev, elems, i) == Ok(plan)
    {
      if !inputs[i].GoObj? {
        NotObj(inputs, i, d, maps);
        FirstError(pc, known, rev, elems, i, NotAMap);
        return Err(InputError(i, NotAMap)), plan;
      }
      ElemTree(inputs, i, d, maps);
      var p := ParseInput(pc, os, revision, i, inputs[i].o, plan, d, maps);
      if p.Err? {
        FirstError(pc, known, rev, elems, i, p.error);
        return Err(InputError(i, p.error)), plan;
      }
      ParsedInputFacts(pc, known, Ids(plan), rev, i, elems[i]);
      AddConsistent(os, plan, p.value);
      AddToSame(outputs, os, p.value);
      os := AddTo(os, p.value);
      plan := plan + [p.value];
    }
    r := Ok(os);
  }

  lemma SameItself(outputs: map<string, OutputI>)
    ensures SameOutputs(outputs, outputs)
  {}

  lemma FirstError(pc: ParseContext, known: set<string>, rev: Option<Value>, elems: seq<Value>, i: nat, e: Problem)
    requires i < |elems| && PlanOf(pc, known, rev, elems, i).Ok?
    requires ParseInputValue(pc, known, Ids(PlanOf(pc, known, rev, elems, i).value), rev, i, elems[i]) == Err(e)
    ensures PlanOf(pc, known, rev, elems, |elems|) == Err(InputError(i, e))
  {
    hide ParseInputValue;
    PlanFails(pc, known, rev, elems, i + 1, |elems|);
  }

  /** Outputs just parsed hold no inputs. */
  lemma ParsedConsistent(pc: ParseContext, outputs: Config, os: map<string, OutputI>)
    requires ParsedOutputs(pc, outputs, os)
    ensures Consistent(os, []) && NoEmptyTypes(os)
  {
    hide ParseOutputValue;
    forall name | name in os ensures os[name].name == name && os[name].inputs == map[] {
      assert ParseOutputValue(pc, name, outputs[name]) == Ok(os[name]);
      ParsedOutputFacts(pc, name, outputs[name]);
    }
  }

  lemma ParsedOutputFacts(pc: ParseContext, name: string, v: Value)
    requires ParseOutputValue(pc, name, v).Ok?
    ensures ParseOutputValue(pc, name, v).value.name == name && ParseOutputValue(pc, name, v).value.inputs == map[]
  {
    hide TypeIn, EnabledIn, LogLevelIn, WithHeaders;
  }

  lemma NoBadOutput(pc: ParseContext, outputs: Config, os: map<string, OutputI>)
    requires ParsedOutputs(pc, outputs, os)
    ensures !exists name, e :: BadOutput(pc, outputs, name, e)
  {
    hide ParseOutputValue;
  }

  /** toIntermediate: the policy is only read. */
  method ToIntermediate(pc: ParseContext, policy: GoMap, ghost d: nat, ghost maps: set<GoMap>)
    returns (r: Result<Option<map<string, OutputI>>, PolicyError>, ghost plan: seq<Parsed>)
    requires TreeFields(policy.m, d, maps)
    ensures Parses(pc, SnapshotFields(policy.m, d, maps), r, plan)
  {
    hide Snapshot, SnapshotFields, Tree, TreeFields, ParsedOutputs, BadOutput, Consistent, SameOutputs, NoEmptyTypes,
         PlanOf, SnapshotElems;
    ghost var value := SnapshotFields(policy.m, d, maps);
    SnapshotKeys(policy.m, d, maps);
    plan := [];
    if "outputs" !in policy.m { return Ok(None), plan; }
    if !policy.m["outputs"].GoObj? { return Err(OutputsNotAMap), plan; }
    ObjTree(policy.m, "outputs", d, maps);
    var parsed := ParseOutputs(pc, policy.m["outputs"].o, d, maps);
    if parsed.Err? { return Err(parsed.error), plan; }
    var outputs := parsed.value;
    NoBadOutput(pc, value["outputs"].fields, outputs);
    if "inputs" !in policy.m { return Ok(None), plan; }
    ListTree(policy.m, "inputs", d, maps);
    if !policy.m["inputs"].GoList? { return Err(InputsNotAList), plan; }
    ParsedConsistent(pc, value["outputs"].fields, outputs);
    ParsedNames(pc, value["outputs"].fields, outputs);
    var revision := if "revision" in policy.m then Some(policy.m["revision"]) else None;
    RevisionIs(policy.m, d, maps);
    var os;
    os, plan := ParseInputs(pc, outputs, revision, policy.m["inputs"].elems, d, maps);
    if os.Err? { return Err(os.error), plan; }
    if outputs == map[] { return Ok(None), plan; }
    r := Ok(Some(os.value));
  }

  lemma ParsedNames(pc: ParseContext, outputs: Config, os: map<string, OutputI>)
    requires ParsedOutputs(pc, outputs, os)
    ensures os.Keys == outputs.Keys && (os == map[] <==> outputs == map[])
  {
    hide ParseOutputValue;
    if os == map[] { assert outputs.Keys == {}; }
    if outputs == map[] { assert os.Keys == {}; }
  }

  lemma ListTree(m: map<string, GoVal>, k: string, d: nat, maps: set<GoMap>)
    requires TreeFields(m, d, maps) && k in m
    ensures k in SnapshotFields(m, d, maps) && (SnapshotFields(m, d, maps)[k].List? <==> m[k].GoList?)
    ensures m[k].GoList? ==> (forall i | 0 <= i < |m[k].elems| :: Tree(m[k].elems[i], d, maps))
                             && SnapshotFields(m, d, maps)[k] == List(SnapshotElems(m[k].elems, d, maps))
  {
    assert Tree(m[k], d, maps);
  }

  lemma RevisionIs(m: map<string, GoVal>, d: nat, maps: set<GoMap>)
    requires TreeFields(m, d, maps)
    ensures var revision := if "revision" in m then Some(m["revision"]) else None;
            (revision.Some? ==> Tree(revision.value, d, maps))
            && RevisionValue(revision, d, maps) == Revision(SnapshotFields(m, d, maps))
  {}

  // ---------- The whole model ----------

  /** What is promised of the components: the enabled inputs of enabled outputs are conserved, every
      component has input units and one output unit, and its unit IDs are distinct. */
  ghost predicate Faithful(cx: Context, outputs: map<string, OutputI>, plan: seq<Parsed>, comps: seq<Component>) {
    && multiset(AllPlacements(comps)) == multiset(PlanPlacements(cx, outputs, plan))
    && forall c | c in comps :: WellShaped(c) && DistinctUnits(c.units)
  }

  ghost predicate Generated(cx: Context, outputs: map<string, OutputI>, comps: seq<Component>, names: seq<string>,
                            types: map<string, seq<string>>) {
    ListingOf(names, outputs.Keys) && Orders(outputs, types) && comps == ModelComponents(cx, outputs, names, types)
  }

  /** A successful parse has distinct input IDs. */
  lemma ParsedPlanDistinct(pc: ParseContext, policy: Config, r: Result<Option<map<string, OutputI>>, PolicyError>,
                           plan: seq<Parsed>)
    requires Parses(pc, policy, r, plan) && r.Ok? && r.value.Some?
    ensures DistinctPlan(plan) && Consistent(r.value.value, plan)
  {
    hide PlanOf, ParsedOutputs, SameOutputs, NoEmptyTypes, Consistent, BadOutput;
    PlanFacts(pc, policy["outputs"].fields.Keys, Revision(policy), policy["inputs"].elems, |policy["inputs"].elems|);
  }

  lemma GeneratedFaithful(cx: Context, outputs: map<string, OutputI>, plan: seq<Parsed>, comps: seq<Component>,
                          names: seq<string>, types: map<string, seq<string>>)
    requires Generated(cx, outputs, comps, names, types) && Consistent(outputs, plan) && DistinctPlan(plan)
    ensures Faithful(cx, outputs, plan, comps)
  {
    hide Consistent, DistinctPlan, WellShaped, DistinctUnits, ModelComponents, AllPlacements, PlanPlacements, Orders;
    Conservation(cx, outputs, plan, names, types);
    forall c | c in comps ensures WellShaped(c) && DistinctUnits(c.units) {
      EveryComponentWellShaped(cx, outputs, names, types, c);
      ModelUnitIdsDistinct(cx, outputs, plan, names, types, c);
    }
  }

  /** No cache, a tidy one, or one that has seen configurations that are not canonical. */
  datatype Mode = NoCache | Tidied | Untidy

  ghost function ModeOf(env: Env, cache: Cache): Mode
    reads cache
  {
    if cache == null then NoCache else if TidyCache(env, cache) then Tidied else Untidy
  }

  /** The cache cannot be noticed in the components of these outputs. */
  ghost predicate Exact(env: Env, mode: Mode, outputs: map<string, OutputI>) {
    match mode
    case NoCache => true
    case Tidied => forall name | name in outputs :: PlainOutput(env, outputs[name])
    case Untidy => false
  }

  /** The faithful components of the outputs, up to unit configurations where the cache can be noticed. */
  ghost predicate Models(cx: Context, mode: Mode, outputs: map<string, OutputI>, plan: seq<Parsed>,
                         comps: seq<Component>, names: seq<string>, types: map<string, seq<string>>) {
    var model := ModelComponents(cx, outputs, names, types);
    && Generated(cx, outputs, model, names, types) && Faithful(cx, outputs, plan, model)
    && AllAlike(comps, model) && (Exact(cx.env, mode, outputs) ==> comps == model)
  }

  function Sharing(cx: Context, features: Value, limits: Value): Context {
    cx.(shared := cx.shared.(features := features, limits := limits))
  }

  /** A parsed policy's errors are passed on; without outputs or inputs there are no components; and
      otherwise they are the modelled ones, with the policy's feature flags and limits. */
  ghost predicate Yields(cx: Context, mode: Mode, features: Value, limits: Option<Value>,
                         parsed: Result<Option<map<string, OutputI>>, PolicyError>, plan: seq<Parsed>,
                         r: Result<seq<Component>, PolicyError>, names: seq<string>, types: map<string, seq<string>>) {
    match parsed
    case Err(e) => r == Err(e)
    case Ok(None) => r == Ok([])
    case Ok(Some(outputs)) =>
      if limits.None? then r == Err(LimitsError)
      else r.Ok? && Models(Sharing(cx, features, limits.value), mode, outputs, plan, r.value, names, types)
  }

  /** What PolicyToComponents returns for the value of a policy. */
  ghost predicate Outcome(cx: Context, pc: ParseContext, mode: Mode, policy: Config,
                          r: Result<seq<Component>, PolicyError>) {
    var agent := AgentSection(policy);
    match pc.features(agent)
    case None => r == Err(FeaturesError)
    case Some(features) =>
      exists parsed, plan, names, types ::
        Parses(pc, policy, parsed, plan) && Yields(cx, mode, features, pc.limits(agent), parsed, plan, r, names, types)
  }

  /** Every output and input of the policy has a canonical configuration. */
  ghost predicate CanonicalPolicy(cx: Context, pc: ParseContext, policy: Config) {
    forall parsed, plan | Parses(pc, policy, parsed, plan) && parsed.Ok? && parsed.value.Some? ::
        Exact(cx.env, Tidied, parsed.value.value)
  }

  /** agentSection: a new map of the agent's keys, which shares its values with the policy. */
  method AgentSectionOf(policy: GoMap, ghost d: nat, ghost maps: set<GoMap>) returns (section: GoMap)
    requires TreeFields(policy.m, d, maps)
    ensures fresh(section) && TreeFields(section.m, d, maps)
    ensures SnapshotFields(section.m, d, maps) == AgentSection(SnapshotFields(policy.m, d, maps))
  {
    hide Snapshot, Tree;
    section := new GoMap(map[]);
    var todo := policy.m.Keys;
    while todo != {}
      invariant todo <= policy.m.Keys && fresh(section)
      invariant forall k :: k in section.m <==> k in policy.m && k !in todo && InAgentSection(k)
      invariant forall k | k in section.m :: section.m[k] == policy.m[k]
      decreases |todo|
    {
      var k :| k in todo;
      if k == "agent" || "agent." <= k {
        section.m := section.m[k := policy.m[k]];
      }
      todo := todo - {k};
    }
  }

  /** PolicyToComponents. The policy is left as it was; the cache is used only once nothing can fail any
      more, and then, for a canonical policy, exactly for the sources of the units. */
  method PolicyToComponents(cx: Context, pc: ParseContext, policy: GoMap, cache: Cache, ghost d: nat,
                            ghost maps: set<GoMap>)
    returns (r: Result<seq<Component>, PolicyError>)
    requires TreeFields(policy.m, d, maps)
    modifies cache
    ensures TreeFields(policy.m, d, maps) && SnapshotFields(policy.m, d, maps) == old(SnapshotFields(policy.m, d, maps))
    ensures Outcome(cx, pc, old(ModeOf(cx.env, cache)), SnapshotFields(policy.m, d, maps), r)
    ensures cache != null && r.Err? ==> cache.entries == old(cache.entries)
    ensures cache != null && r.Ok? && old(TidyCache(cx.env, cache))
            && CanonicalPolicy(cx, pc, SnapshotFields(policy.m, d, maps)) ==>
              TidyCache(cx.env, cache) && UsedIn(cache) == old(UsedIn(cache)) + ComponentSources(r.value)
  {
    hide Snapshot, SnapshotFields, Tree, TreeFields, Parses, Models, Outcome, Consistent, DistinctPlan, TidyCache,
         UsedIn, ComponentSources, Exact, ModeOf;
    ghost var value := SnapshotFields(policy.m, d, maps);
    var section := AgentSectionOf(policy, d, maps);
    var agent := SnapshotFields(section.m, d, maps);
    var features := pc.features(agent);
    if features.None? {
      NoFeatures(cx, pc, ModeOf(cx.env, cache), value);
      return Err(FeaturesError);
    }
    var outputs, plan := ToIntermediate(pc, policy, d, maps);
    NoSources();
    if outputs.Err? {
      Passed(cx, pc, ModeOf(cx.env, cache), value, outputs, plan, Err(outputs.error));
      return Err(outputs.error);
    }
    if outputs.value.None? {
      Passed(cx, pc, ModeOf(cx.env, cache), value, outputs, plan, Ok([]));
      return Ok([]);
    }
    var limits := pc.limits(agent);
    if limits.None? {
      Passed(cx, pc, ModeOf(cx.env, cache), value, outputs, plan, Err(LimitsError));
      return Err(LimitsError);
    }
    ParsedPlanDistinct(pc, value, outputs, plan);
    var comps, names, types := GenerateFrom(Sharing(cx, features.value, limits.value), outputs.value.value, plan,
        cache);
    r := Ok(comps);
    Produced(cx, pc, old(ModeOf(cx.env, cache)), value, outputs, plan, comps, names, types);
  }

  /** The generation from parsed outputs. */
  method GenerateFrom(cx: Context, outputs: map<string, OutputI>, ghost plan: seq<Parsed>, cache: Cache)
    returns (comps: seq<Component>, ghost names: seq<string>, ghost types: map<string, seq<string>>)
    requires DistinctPlan(plan) && Consistent(outputs, plan)
    modifies cache
    ensures Models(cx, old(ModeOf(cx.env, cache)), outputs, plan, comps, names, types)
    ensures cache != null && old(TidyCache(cx.env, cache)) && Exact(cx.env, Tidied, outputs) ==>
              TidyCache(cx.env, cache) && UsedIn(cache) == old(UsedIn(cache)) + ComponentSources(comps)
  {
    hide Faithful, Consistent, DistinctPlan, TidyCache, UsedIn, ComponentSources, PlainOutput, Alike, ModelComponents,
         Orders;
    ExactIsSteady(cx, cache, outputs);
    ghost var model;
    comps, model, names, types := GenerateComponents(cx, outputs, cache);
    GeneratedFaithful(cx, outputs, plan, model, names, types);
  }

  lemma ExactIsSteady(cx: Context, cache: Cache, outputs: map<string, OutputI>)
    ensures Exact(cx.env, ModeOf(cx.env, cache), outputs) ==> AllSteady(cx, cache, outputs)
    ensures cache != null && TidyCache(cx.env, cache) && Exact(cx.env, Tidied, outputs) ==>
              AllSteady(cx, cache, outputs)
  {
    hide PlainOutput;
  }

  lemma Passed(cx: Context, pc: ParseContext, mode: Mode, policy: Config,
               parsed: Result<Option<map<string, OutputI>>, PolicyError>, plan: seq<Parsed>,
               r: Result<seq<Component>, PolicyError>)
    requires pc.features(AgentSection(policy)).Some? && Parses(pc, policy, parsed, plan)
    requires match parsed
             case Err(e) => r == Err(e)
             case Ok(None) => r == Ok([])
             case Ok(Some(_)) => pc.limits(AgentSection(policy)).None? && r == Err(LimitsError)
    ensures Outcome(cx, pc, mode, policy, r)
  {
    hide Parses;
    var agent := AgentSection(policy);
    assert Yields(cx, mode, pc.features(agent).value, pc.limits(agent), parsed, plan, r, [], map[]);
  }

  lemma NoFeatures(cx: Context, pc: ParseContext, mode: Mode, policy: Config)
    requires pc.features(AgentSection(policy)).None?
    ensures Outcome(cx, pc, mode, policy, Err(FeaturesError))
  {}

  lemma Produced(cx: Context, pc: ParseContext, mode: Mode, policy: Config,
                 parsed: Result<Option<map<string, OutputI>>, PolicyError>, plan: seq<Parsed>,
                 comps: seq<Component>, names: seq<string>, types: map<string, seq<string>>)
    requires Parses(pc, policy, parsed, plan) && parsed.Ok? && parsed.value.Some?
    requires pc.features(AgentSection(policy)).Some? && pc.limits(AgentSection(policy)).Some?
    requires Models(Sharing(cx, pc.features(AgentSection(policy)).value, pc.limits(AgentSection(policy)).value), mode,
                    parsed.value.value, plan, comps, names, types)
    ensures Outcome(cx, pc, mode, policy, Ok(comps))
  {
    hide Parses, Models;
    var agent := AgentSection(policy);
    assert Yields(cx, mode, pc.features(agent).value, pc.limits(agent), parsed, plan, Ok(comps), names, types);
  }

  // ---------- Equal policies give equal models ----------

  lemma SameInputs(a: map<string, OutputI>, b: map<string, OutputI>, plan: seq<Parsed>, name: string)
    requires Consistent(a, plan) && Consistent(b, plan) && NoEmptyTypes(a) && NoEmptyTypes(b) && name in a && name in b
    ensures a[name].inputs == b[name].inputs
  {
    hide PlanInputs;
    forall t
      ensures t in a[name].inputs <==> t in b[name].inputs
      ensures t in a[name].inputs ==> a[name].inputs[t] == b[name].inputs[t]
    {
      assert InputsOf(a[name], t) == PlanInputs(plan, name, t);
      assert InputsOf(b[name], t) == PlanInputs(plan, name, t);
    }
  }

  lemma SameParsedOutputs(pc: ParseContext, outputs: Config, a: map<string, OutputI>, b: map<string, OutputI>)
    requires ParsedOutputs(pc, outputs, a) && ParsedOutputs(pc, outputs, b)
    ensures a == b
  {
    hide ParseOutputValue;
    forall name | name in outputs ensures a[name] == b[name] {
      assert ParseOutputValue(pc, name, outputs[name]) == Ok(a[name]) == Ok(b[name]);
    }
  }

  lemma SameFinalOutputs(pc: ParseContext, outputs: Config, a: map<string, OutputI>, b: map<string, OutputI>,
                         plan: seq<Parsed>)
    requires Consistent(a, plan) && Consistent(b, plan) && NoEmptyTypes(a) && NoEmptyTypes(b)
    requires exists os :: ParsedOutputs(pc, outputs, os) && SameOutputs(os, a)
    requires exists os :: ParsedOutputs(pc, outputs, os) && SameOutputs(os, b)
    ensures a == b
  {
    hide Consistent, NoEmptyTypes, ParsedOutputs;
    var x: map<string, OutputI> :| ParsedOutputs(pc, outputs, x) && SameOutputs(x, a);
    var y: map<string, OutputI> :| ParsedOutputs(pc, outputs, y) && SameOutputs(y, b);
    SameParsedOutputs(pc, outputs, x, y);
    forall name | name in a ensures a[name] == b[name] {
      SameInputs(a, b, plan, name);
      assert x[name].(inputs := a[name].inputs) == a[name] && y[name].(inputs := b[name].inputs) == b[name];
    }
  }

  /** Parsing is a function of the policy's value: only which of several bad outputs is reported may vary. */
  lemma ParsesDeterministic(pc: ParseContext, policy: Config, a: Result<Option<map<string, OutputI>>, PolicyError>,
                            p: seq<Parsed>,
                            b: Result<Option<map<string, OutputI>>, PolicyError>, q: seq<Parsed>)
    requires Parses(pc, policy, a, p) && Parses(pc, policy, b, q)
    ensures a == b || (a.Err? && b.Err? && a.error.OutputError? && b.error.OutputError?)
  {
    hide PlanOf, ParsedOutputs, SameOutputs, NoEmptyTypes, Consistent, BadOutput;
    if a.Ok? && b.Ok? && a.value.Some? && b.value.Some? {
      SameFinalOutputs(pc, policy["outputs"].fields, a.value.value, b.value.value, p);
    }
  }

  /** Two generations for the same outputs give the same components, in whatever order types are ranged. */
  lemma GeneratedSame(cx: Context, outputs: map<string, OutputI>, comps: seq<Component>, names: seq<string>,
                      types: map<string, seq<string>>,
                      comps': seq<Component>, names': seq<string>, types': map<string, seq<string>>)
    requires Generated(cx, outputs, comps, names, types) && Generated(cx, outputs, comps', names', types')
    ensures multiset(comps) == multiset(comps')
  {
    hide ModelComponents, Orders;
    ListingUnique(names, names', outputs.Keys);
    ModelOrderIndependent(cx, outputs, names, types, types');
  }

  /** Policies of equal value give the same bag of components, or both an error; with a cache that can
      be noticed, the same bag up to unit configurations. */
  lemma EqualPoliciesEqualModels(cx: Context, pc: ParseContext, policy: Config, mode: Mode, mode': Mode,
                                 r: Result<seq<Component>, PolicyError>, r': Result<seq<Component>, PolicyError>)
    requires Outcome(cx, pc, mode, policy, r) && Outcome(cx, pc, mode', policy, r')
    ensures r.Ok? <==> r'.Ok?
    ensures r.Ok? ==> exists a, b :: AllAlike(r.value, a) && AllAlike(r'.value, b) && multiset(a) == multiset(b)
    ensures r.Ok? && Unnoticed(cx, pc, mode, policy) && Unnoticed(cx, pc, mode', policy) ==>
              multiset(r.value) == multiset(r'.value)
  {
    hide Parses, Faithful, Generated, ModelComponents, Exact, Alike;
    var agent := AgentSection(policy);
    if pc.features(agent).Some? {
      var features, limits := pc.features(agent).value, pc.limits(agent);
      var parsed, plan, names, types :|
        Parses(pc, policy, parsed, plan) && Yields(cx, mode, features, limits, parsed, plan, r, names, types);
      var parsed', plan', names', types' :|
        Parses(pc, policy, parsed', plan') && Yields(cx, mode', features, limits, parsed', plan', r', names', types');
      ParsesDeterministic(pc, policy, parsed, plan, parsed', plan');
      if r.Ok? {
        if parsed.value.Some? {
          var outputs, sharing := parsed.value.value, Sharing(cx, features, limits.value);
          var a, b := ModelComponents(sharing, outputs, names, types),
              ModelComponents(sharing, outputs, names', types');
          GeneratedSame(sharing, outputs, a, names, types, b, names', types');
        } else {
          assert AllAlike([], []) && multiset(r.value) == multiset(r'.value);
        }
      }
    }
  }

  /** There is no cache, or a tidy one for a canonical policy. */
  ghost predicate Unnoticed(cx: Context, pc: ParseContext, mode: Mode, policy: Config) {
    forall parsed, plan | Parses(pc, policy, parsed, plan) && parsed.Ok? && parsed.value.Some? ::
        Exact(cx.env, mode, parsed.value.value)
  }

  // ---------- The model and the cache ----------

  /** A modifier of a component model, given the policy; foreign. */
  type Modifier = (seq<Component>, Config) -> Result<seq<Component>, PolicyError>

  /** The modifiers applied in turn, up to the first error. */
  function Modified(mods: seq<Modifier>, comps: seq<Component>, policy: Config): Result<seq<Component>, PolicyError> {
    if mods == [] then Ok(comps)
    else
      var before :- Modified(mods[..|mods| - 1], comps, policy);
      mods[|mods| - 1](before, policy)
  }

  method ApplyModifiers(mods: seq<Modifier>, comps: seq<Component>, policy: Config)
    returns (r: Result<seq<Component>, PolicyError>)
    ensures r == Modified(mods, comps, policy)
  {
    var now := comps;
    for i := 0 to |mods|
      invariant Modified(mods[..i], comps, policy) == Ok(now)
    {
      assert mods[..i + 1][..i] == mods[..i];
      var next := mods[i](now, policy);
      if next.Err? {
        FailsEarly(mods, comps, policy, i + 1);
        return next;
      }
      now := next.value;
    }
    assert mods[..|mods|] == mods;
    r := Ok(now);
  }

  lemma {:induction false} FailsEarly(mods: seq<Modifier>, comps: seq<Component>, policy: Config, i: nat)
    requires i <= |mods| && Modified(mods[..i], comps, policy).Err?
    ensures Modified(mods, comps, policy) == Modified(mods[..i], comps, policy)
  {
    if i == |mods| {
      assert mods[..i] == mods;
    } else {
      assert mods[..|mods| - 1][..i] == mods[..i];
      FailsEarly(mods[..|mods| - 1], comps, policy, i);
    }
  }

  /** The components of a policy and then those of its monitoring configuration, each modified, or the
      first error; made are the components before they are modified. */
  ghost predicate ModelOutcome(cx: Context, pc: ParseContext, mods: seq<Modifier>, mode: Mode, policy: Config,
                               monitoring: Result<Option<Config>, PolicyError>,
                               r: Result<seq<Component>, PolicyError>, made: seq<Component>) {
    exists first :: Outcome(cx, pc, mode, policy, first)
      && if first.Err? then r == first
         else
           var own := Modified(mods, first.value, policy);
           if own.Err? then r == own
           else
             match monitoring
             case Err(e) => r == Err(e)
             case Ok(None) => r == own && made == first.value
             case Ok(Some(m)) => exists mode' ::
                 Monitored(cx, pc, mods, mode', policy, m, first.value, own.value, r, made)
  }

  ghost predicate Monitored(cx: Context, pc: ParseContext, mods: seq<Modifier>, mode: Mode, policy: Config, m: Config,
                            first: seq<Component>, own: seq<Component>,
                            r: Result<seq<Component>, PolicyError>, made: seq<Component>) {
    exists second :: Outcome(cx, pc.(dynamicInputs := {}), mode, m, second)
      && if second.Err? then r == second
         else
           var more := Modified(mods, second.value, policy);
           if more.Err? then r == more else r == Ok(own + more.value) && made == first + second.value
  }

  ghost predicate AllCanonical(cx: Context, pc: ParseContext, policy: Config,
                               monitoring: Result<Option<Config>, PolicyError>) {
    && CanonicalPolicy(cx, pc, policy)
    && (monitoring.Ok? && monitoring.value.Some? ==>
          CanonicalPolicy(cx, pc.(dynamicInputs := {}), monitoring.value.value))
  }

  /** ToComponents, for a policy and the monitoring configuration injected for it, if there is one. On
      success the cache is swept: from then on it holds exactly the sources of the units made and those
      left from calls that failed since the last sweep, each once and unused. */
  method ToComponents(cx: Context, pc: ParseContext, policy: GoMap, mods: seq<Modifier>,
                      monitoring: Result<Option<GoMap>, PolicyError>, cache: Cache, ghost d: nat,
                          ghost maps: set<GoMap>)
    returns (r: Result<seq<Component>, PolicyError>, ghost made: seq<Component>)
    requires TreeFields(policy.m, d, maps)
    requires monitoring.Ok? && monitoring.value.Some? ==> TreeFields(monitoring.value.value.m, d, maps)
    modifies cache
    ensures ModelOutcome(cx, pc, mods, old(ModeOf(cx.env, cache)), old(SnapshotFields(policy.m, d, maps)),
                         old(MonitoringValue(monitoring, d, maps)), r, made)
    ensures cache != null && r.Ok? && old(TidyCache(cx.env, cache))
            && AllCanonical(cx, pc, old(SnapshotFields(policy.m, d, maps)),
                old(MonitoringValue(monitoring, d, maps))) ==>
              && ConfigCache.Sources(cache.entries) == old(UsedIn(cache)) + ComponentSources(made)
              && ConfigCache.Total(cache.entries) == |old(UsedIn(cache)) + ComponentSources(made)|
              && TidyCache(cx.env, cache) && UsedIn(cache) == {}
  {
    hide SnapshotFields, TreeFields, ModelOutcome, AllCanonical, ComponentSources, TidyCache, UsedIn, ModeOf,
         MonitoringValue;
    r, made := MakeModel(cx, pc, policy, mods, monitoring, cache, d, maps);
    if r.Ok? && cache != null { SweepCache(cx, cache); }
  }

  /** Everything before the cache is swept. */
  method MakeModel(cx: Context, pc: ParseContext, policy: GoMap, mods: seq<Modifier>,
                   monitoring: Result<Option<GoMap>, PolicyError>, cache: Cache, ghost d: nat, ghost maps: set<GoMap>)
    returns (r: Result<seq<Component>, PolicyError>, ghost made: seq<Component>)
    requires TreeFields(policy.m, d, maps)
    requires monitoring.Ok? && monitoring.value.Some? ==> TreeFields(monitoring.value.value.m, d, maps)
    modifies cache
    ensures ModelOutcome(cx, pc, mods, old(ModeOf(cx.env, cache)), old(SnapshotFields(policy.m, d, maps)),
                         old(MonitoringValue(monitoring, d, maps)), r, made)
    ensures cache != null && r.Ok? && old(TidyCache(cx.env, cache))
            && AllCanonical(cx, pc, old(SnapshotFields(policy.m, d, maps)),
                old(MonitoringValue(monitoring, d, maps))) ==>
              TidyCache(cx.env, cache) && UsedIn(cache) == old(UsedIn(cache)) + ComponentSources(made)
  {
    hide Snapshot, SnapshotFields, Tree, TreeFields, Outcome, Monitored, CanonicalPolicy, ComponentSources, TidyCache,
         UsedIn, ModeOf, Modified;
    var value := SnapshotFields(policy.m, d, maps);
    made := [];
    var first := PolicyToComponents(cx, pc, policy, cache, d, maps);
    if first.Err? { return first, made; }
    var own := ApplyModifiers(mods, first.value, value);
    if own.Err? { return own, made; }
    made := first.value;
    if monitoring.Err? { return Err(monitoring.error), made; }
    r := own;
    if monitoring.value.Some? {
      ghost var more;
      r, more := AddMonitoring(cx, pc, mods, value, monitoring.value.value, first.value, own.value, cache, d, maps);
      made := made + more;
      ComponentSourcesConcat(first.value, more);
    }
  }

  /** The components of the monitoring configuration, appended to those of the policy. */
  method AddMonitoring(cx: Context, pc: ParseContext, mods: seq<Modifier>, policy: Config, m: GoMap,
                       ghost first: seq<Component>, own: seq<Component>, cache: Cache, ghost d: nat,
                           ghost maps: set<GoMap>)
    returns (r: Result<seq<Component>, PolicyError>, ghost more: seq<Component>)
    requires TreeFields(m.m, d, maps)
    modifies cache
    ensures Monitored(cx, pc, mods, old(ModeOf(cx.env, cache)), policy, old(SnapshotFields(m.m, d, maps)), first, own,
            r, first + more)
    ensures cache != null && r.Ok? && old(TidyCache(cx.env, cache))
            && CanonicalPolicy(cx, pc.(dynamicInputs := {}), old(SnapshotFields(m.m, d, maps))) ==>
              TidyCache(cx.env, cache) && UsedIn(cache) == old(UsedIn(cache)) + ComponentSources(more)
  {
    hide Snapshot, SnapshotFields, Tree, TreeFields, Outcome, CanonicalPolicy, ComponentSources, TidyCache, UsedIn,
         ModeOf, Modified;
    more := [];
    r := PolicyToComponents(cx, pc.(dynamicInputs := {}), m, cache, d, maps);
    if r.Err? { return; }
    more := r.value;
    r := ApplyModifiers(mods, r.value, policy);
    if r.Err? { return; }
    r := Ok(own + r.value);
  }

  ghost function MonitoringValue(monitoring: Result<Option<GoMap>, PolicyError>, d: nat,
                                 maps: set<GoMap>): Result<Option<Config>, PolicyError>
    requires monitoring.Ok? && monitoring.value.Some? ==> TreeFields(monitoring.value.value.m, d, maps)
    reads maps, if monitoring.Ok? && monitoring.value.Some? then {monitoring.value.value} else {}
  {
    match monitoring
    case Err(e) => Err(e)
    case Ok(None) => Ok(None)
    case Ok(Some(m)) => Ok(Some(SnapshotFields(m.m, d, maps)))
  }

  method SweepCache(cx: Context, cache: ConfigCache.ExpectedConfigCache)
    modifies cache
    ensures old(TidyCache(cx.env, cache)) ==>
              && ConfigCache.Sources(cache.entries) == old(UsedIn(cache))
                  && ConfigCache.Total(cache.entries) == |old(UsedIn(cache))|
              && TidyCache(cx.env, cache) && UsedIn(cache) == {}
  {
    ghost var before := cache.entries;
    cache.Sweep();
    if Lawful(cx.env) && ConfigCache.Tidy(cx.env, before) {
      ConfigCache.SweepIsLive(cx.env, before);
      ConfigCache.SweepKeepsUsed(cx.env, before);
    }
  }
}
