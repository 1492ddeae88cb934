/** Parsing a policy into outputs and inputs, on values. */
module PolicySpec {
  import opened Values
  import opened Components
  import opened ComponentConservation
  import opened UnitIdentity

  datatype Problem =
    | NotAMap | TypeMissing | TypeNotAString | IdNotAString | DuplicateId | UseOutputNotAString | UnknownOutput
    | EnabledNotABool | BadLogLevel | RuntimeNotAString | BadRuntime | HeadersNotAMap

  datatype PolicyError =
    | OutputsNotAMap | OutputError(name: string, what: Problem) | InputsNotAList | InputError(idx: nat, what: Problem)
    | FeaturesError | LimitsError | MonitoringError | ModifierError

  /** What parsing depends on: trimming and lower-casing of level names (foreign), the agent's level,
      the enrolment headers (empty when there are none), the alias table, the dynamic inputs, and the
      foreign parsing of feature flags and limits. */
  datatype ParseContext = ParseContext(
    normalize: string -> string, agentLevel: string, headers: map<string, string>,
    aliases: map<string, string>, dynamicInputs: set<string>,
    features: Config -> Option<Value>, limits: Config -> Option<Value>)

  /** stringToLogLevel. */
  function LevelOf(pc: ParseContext, s: string): Option<LogLevel> {
    var n := pc.normalize(s);
    if n == "error" then Some(LevelError)
    else if n == "warn" || n == "warning" then Some(LevelWarn)
    else if n == "info" then Some(LevelInfo)
    else if n == "debug" then Some(LevelDebug)
    else if n == "trace" then Some(LevelTrace)
    else None
  }

  /** getLogLevel: the agent's level unless the map sets one. */
  function LogLevelIn(pc: ParseContext, m: Config): Result<LogLevel, Problem> {
    if LevelOf(pc, pc.agentLevel).None? then Err(BadLogLevel)
    else if "log_level" !in m then Ok(LevelOf(pc, pc.agentLevel).value)
    else
      match m["log_level"]
      case Str(s) => (match LevelOf(pc, s) case Some(l) => Ok(l) case None => Err(BadLogLevel))
      case _ => Err(BadLogLevel)
  }

  function TypeIn(m: Config): Result<string, Problem> {
    if "type" !in m then Err(TypeMissing)
    else match m["type"] case Str(t) => Ok(t) case _ => Err(TypeNotAString)
  }

  function EnabledIn(m: Config): Result<bool, Problem> {
    if "enabled" !in m then Ok(true)
    else match m["enabled"] case Bool(b) => Ok(b) case _ => Err(EnabledNotABool)
  }

  // ---------- Outputs ----------

  function HeaderValues(pc: ParseContext): Config {
    map h | h in pc.headers :: Str(pc.headers[h])
  }

  /** The agent's headers are added to an elasticsearch output, its own ones winning. */
  function WithHeaders(pc: ParseContext, t: string, m: Config): Result<Config, Problem> {
    if t != "elasticsearch" || pc.headers == map[] then Ok(m)
    else if "headers" !in m then Ok(m["headers" := Map(HeaderValues(pc))])
    else
      match m["headers"]
      case Map(own) => Ok(m["headers" := Map(HeaderValues(pc) + own)])
      case _ => Err(HeadersNotAMap)
  }

  /** ParseOutput: the parsed output keeps the configuration without enabled and log_level. */
  function ParseOutputOf(pc: ParseContext, name: string, m: Config): Result<OutputI, Problem> {
    var t :- TypeIn(m);
    var enabled :- EnabledIn(m);
    var level :- LogLevelIn(pc, m);
    var config :- WithHeaders(pc, t, m - {"enabled", "log_level"});
    Ok(OutputI(name, enabled, level, t, config, map[]))
  }

  function ParseOutputValue(pc: ParseContext, name: string, v: Value): Result<OutputI, Problem> {
    match v
    case Map(m) => ParseOutputOf(pc, name, m)
    case _ => Err(NotAMap)
  }

  // ---------- Inputs ----------

  /** injectInputPolicyID. */
  function WithPolicyId(revision: Option<Value>, m: Config): Config {
    if revision.None? then m
    else if "policy" in m && !m["policy"].Nil? then
      match m["policy"]
      case Map(p) => m["policy" := Map(p["revision" := revision.value])]
      case _ => m
    else m["policy" := Map(map["revision" := revision.value])]
  }

  function UseOutputIn(m: Config): Result<string, Problem> {
    if "use_output" !in m then Ok("default")
    else match m["use_output"] case Str(s) => Ok(s) case _ => Err(UseOutputNotAString)
  }

  function RuntimeIn(m: Config): Result<string, Problem> {
    if "_runtime_experimental" !in m then Ok("")
    else
      match m["_runtime_experimental"]
      case Str(s) => if s == OTEL || s == PROCESS then Ok(s) else Err(BadRuntime)
      case _ => Err(RuntimeNotAString)
  }

  function RealType(pc: ParseContext, t: string): string { if t in pc.aliases then pc.aliases[t] else t }

  /** By replacing an aliased type, the component understands it. */
  function Aliased(pc: ParseContext, raw: string, m: Config): Config {
    if raw in pc.aliases then m["type" := Str(RealType(pc, raw))] else m
  }

  function IdIn(m: Config, t: string): Result<string, Problem> {
    if "id" !in m then Ok(t)
    else match m["id"] case Str(s) => Ok(s) case _ => Err(IdNotAString)
  }

  const CONSUMED := {"use_output", "enabled", "log_level", "_runtime_experimental"}

  /** What the consumed keys say. */
  datatype Taken = Taken(output: string, enabled: bool, level: LogLevel, manager: string)

  function TakenFrom(pc: ParseContext, known: set<string>, m: Config): Result<Taken, Problem> {
    var name :- UseOutputIn(m);
    if name !in known then Err(UnknownOutput)
    else
      var enabled :- EnabledIn(m);
      var level :- LogLevelIn(pc, m);
      var manager :- RuntimeIn(m);
      Ok(Taken(name, enabled, level, manager))
  }

  /** One pass of the input loop: known are the output names, used the IDs of the inputs so far. */
  function ParseInputOf(pc: ParseContext, known: set<string>, used: set<string>, revision: Option<Value>, idx: nat,
                        m: Config): Result<Parsed, Problem> {
    var raw :- TypeIn(m);
    var t := RealType(pc, raw);
    var id :- IdIn(m, t);
    if id in used then Err(DuplicateId)
    else
      var taken :- TakenFrom(pc, known, m);
      var config := WithPolicyId(revision, Aliased(pc, raw, m) - CONSUMED);
      Ok(Parsed(taken.output,
          InputI(idx, id, taken.enabled, taken.level, t, taken.manager, id in pc.dynamicInputs, config)))
  }

  function ParseInputValue(pc: ParseContext, known: set<string>, used: set<string>, revision: Option<Value>, idx: nat,
                           v: Value): Result<Parsed, Problem> {
    match v
    case Map(m) => ParseInputOf(pc, known, used, revision, idx, m)
    case _ => Err(NotAMap)
  }

  function Ids(plan: seq<Parsed>): set<string> {
    set i | 0 <= i < |plan| :: plan[i].input.id
  }

  /** The first n inputs, or the first error among them. */
  function PlanOf(pc: ParseContext, known: set<string>, revision: Option<Value>, inputs: seq<Value>,
                  n: nat): Result<seq<Parsed>, PolicyError>
    requires n <= |inputs|
  {
    if n == 0 then Ok([])
    else
      var before :- PlanOf(pc, known, revision, inputs, n - 1);
      match ParseInputValue(pc, known, Ids(before), revision, n - 1, inputs[n - 1])
      case Err(e) => Err(InputError(n - 1, e))
      case Ok(p) => Ok(before + [p])
  }

  // ---------- What a successful parse guarantees ----------

  lemma ParsedInputFacts(pc: ParseContext, known: set<string>, used: set<string>, revision: Option<Value>, idx: nat,
                         v: Value)
    requires ParseInputValue(pc, known, used, revision, idx, v).Ok?
    ensures var p := ParseInputValue(pc, known, used, revision, idx, v).value;
            p.input.id !in used && p.output in known && p.input.idx == idx
  {
    hide LogLevelIn, WithPolicyId;
  }

  /** The sections under a key are the same. */
  ghost predicate SameAt(a: Config, b: Config, k: string) {
    (k in a <==> k in b) && (k in a ==> a[k] == b[k])
  }

  /** What an input reads from its map and what is left in its configuration, key by key. */
  lemma ParsedInputReads(pc: ParseContext, known: set<string>, used: set<string>, revision: Option<Value>, idx: nat,
                         m: Config)
    requires ParseInputOf(pc, known, used, revision, idx, m).Ok?
    ensures var p := ParseInputOf(pc, known, used, revision, idx, m).value;
            var c := p.input.config;
            && "type" in m && m["type"].Str? && p.input.inputType == RealType(pc, m["type"].s)
            && (if "id" in m then m["id"] == Str(p.input.id) else p.input.id == p.input.inputType)
            && (if "use_output" in m then m["use_output"] == Str(p.output) else p.output == "default")
            && (if "enabled" in m then m["enabled"] == Bool(p.input.enabled) else p.input.enabled)
            && (if "_runtime_experimental" in m then m["_runtime_experimental"] == Str(p.input.runtimeManager)
                else p.input.runtimeManager == "")
            && ReadsLevel(pc, m, p.input.logLevel) && (p.input.dynamic <==> p.input.id in pc.dynamicInputs)
                && p.input.idx == idx
            && KeepsRest(revision, m, c) && "type" in c && c["type"] == Str(p.input.inputType)
  {
    hide LevelOf, WithPolicyId, Aliased, KeepsRest;
    KeepsTheRest(pc, m["type"].s, revision, m);
  }

  /** Of the keys of a map none that is consumed is kept, and all others are, up to the type and the
      revision in the policy section, which is set unless there is none or the section is no map. */
  ghost predicate KeepsRest(revision: Option<Value>, m: Config, c: Config) {
    && c.Keys !! CONSUMED
    && (forall k | k !in CONSUMED && k != "type" && k != "policy" :: SameAt(c, m, k))
    && if revision.None? || ("policy" in m && !m["policy"].Nil? && !m["policy"].Map?) then SameAt(c, m, "policy")
       else RevisionSet(revision.value, m, c)
  }

  lemma KeepsTheRest(pc: ParseContext, raw: string, revision: Option<Value>, m: Config)
    requires "type" in m && m["type"] == Str(raw)
    ensures var c := WithPolicyId(revision, Aliased(pc, raw, m) - CONSUMED);
            KeepsRest(revision, m, c) && "type" in c && c["type"] == Str(RealType(pc, raw))
  {
    var kept := Aliased(pc, raw, m) - CONSUMED;
    assert SameAt(kept, m, "policy") && forall k | k !in CONSUMED && k != "type" :: SameAt(kept, m, k);
  }

  /** The level named by the map, or the agent's. */
  ghost predicate ReadsLevel(pc: ParseContext, m: Config, level: LogLevel) {
    if "log_level" in m then m["log_level"].Str? && LevelOf(pc, m["log_level"].s) == Some(level)
    else LevelOf(pc, pc.agentLevel) == Some(level)
  }

  /** The policy section of c is that of m with the revision set. */
  ghost predicate RevisionSet(revision: Value, m: Config, c: Config) {
    && "policy" in c && c["policy"].Map? && "revision" in c["policy"].fields
        && c["policy"].fields["revision"] == revision
    && var own := if "policy" in m && m["policy"].Map? then m["policy"].fields else map[];
    forall k | k != "revision" :: SameAt(c["policy"].fields, own, k)
  }

  /** What an output keeps of its map; of headers set by both, its own ones stay. */
  lemma ParsedOutputReads(pc: ParseContext, name: string, m: Config)
    requires ParseOutputOf(pc, name, m).Ok?
    ensures var o := ParseOutputOf(pc, name, m).value;
            && o.name == name && "type" in m && m["type"] == Str(o.outputType) && o.inputs == map[]
            && (if "enabled" in m then m["enabled"] == Bool(o.enabled) else o.enabled) && ReadsLevel(pc, m, o.logLevel)
            && "enabled" !in o.config && "log_level" !in o.config
            && (forall k | k !in {"enabled", "log_level", "headers"} :: SameAt(o.config, m, k))
            && if o.outputType != "elasticsearch" || pc.headers == map[] then SameAt(o.config, m, "headers")
               else
                 && "headers" in o.config && o.config["headers"].Map?
                 && HeadersMerged(pc, m, o.config["headers"].fields)
  {
    hide LevelOf;
  }

  ghost predicate HeadersMerged(pc: ParseContext, m: Config, merged: Config) {
    ("headers" in m ==> m["headers"].Map?)
    && var own := if "headers" in m then m["headers"].fields else map[];
    && merged.Keys == own.Keys + pc.headers.Keys
    && forall h | h in merged :: merged[h] == if h in own then own[h] else Str(pc.headers[h])
  }

  /** One parsed input per policy input, in order, each directed at a known output; IDs are distinct. */
  lemma {:induction false} PlanFacts(pc: ParseContext, known: set<string>, revision: Option<Value>, inputs: seq<Value>,
                                     n: nat)
    requires n <= |inputs| && PlanOf(pc, known, revision, inputs, n).Ok?
    ensures var plan := PlanOf(pc, known, revision, inputs, n).value;
            |plan| == n && DistinctPlan(plan)
            && forall i | 0 <= i < n :: plan[i].input.idx == i && plan[i].output in known
    decreases n
  {
    hide ParseInputValue;
    if n > 0 {
      PlanFacts(pc, known, revision, inputs, n - 1);
      var before := PlanOf(pc, known, revision, inputs, n - 1).value;
      ParsedInputFacts(pc, known, Ids(before), revision, n - 1, inputs[n - 1]);
      assert forall i | 0 <= i < |before| :: before[i].input.id in Ids(before);
    }
  }

  /** Once an input fails, so does every longer prefix. */
  lemma {:induction false} PlanFails(pc: ParseContext, known: set<string>, revision: Option<Value>, inputs: seq<Value>,
                                     i: nat, n: nat)
    requires i <= n <= |inputs| && PlanOf(pc, known, revision, inputs, i).Err?
    ensures PlanOf(pc, known, revision, inputs, n) == PlanOf(pc, known, revision, inputs, i)
    decreases n - i
  {
    hide ParseInputValue;
    if i < n { PlanFails(pc, known, revision, inputs, i, n - 1); }
  }

  function AddTo(outputs: map<string, OutputI>, p: Parsed): map<string, OutputI>
    requires p.output in outputs
  {
    var o := outputs[p.output];
    var t := p.input.inputType;
    outputs[p.output := o.(inputs := o.inputs[t := InputsOf(o, t) + [p.input]])]
  }

  /** Appending an input to its output keeps the outputs consistent with the plan. */
  lemma AddConsistent(outputs: map<string, OutputI>, plan: seq<Parsed>, p: Parsed)
    requires Consistent(outputs, plan) && p.output in outputs
    ensures Consistent(AddTo(outputs, p), plan + [p])
  {
    hide PlanInputs;
    var after := AddTo(outputs, p);
    forall name, t | name in after ensures InputsOf(after[name], t) == PlanInputs(plan + [p], name, t) {
      PlanInputsSnoc(plan, p, name, t);
      assert InputsOf(outputs[name], t) == PlanInputs(plan, name, t);
    }
    assert forall i | 0 <= i < |plan| :: (plan + [p])[i] == plan[i];
  }

  lemma PlanInputsSnoc(plan: seq<Parsed>, p: Parsed, name: string, t: string)
    ensures PlanInputs(plan + [p], name, t)
            == PlanInputs(plan, name, t) + (if p.output == name && p.input.inputType == t then [p.input] else [])
  {
    assert (plan + [p])[..|plan|] == plan;
  }

  /** hasDuplicate. */
  predicate HasDuplicate(outputs: map<string, OutputI>, id: string) {
    exists name | name in outputs :: HoldsId(outputs[name], id)
  }

  predicate HoldsId(output: OutputI, id: string) {
    exists t | t in output.inputs :: exists i | 0 <= i < |output.inputs[t]| :: output.inputs[t][i].id == id
  }

  lemma DuplicateIsUsed(outputs: map<string, OutputI>, plan: seq<Parsed>, id: string)
    requires Consistent(outputs, plan)
    ensures HasDuplicate(outputs, id) <==> id in Ids(plan)
  {
    if HasDuplicate(outputs, id) {
      var name :| name in outputs && HoldsId(outputs[name], id);
      var t :| t in outputs[name].inputs
          && exists i | 0 <= i < |outputs[name].inputs[t]| :: outputs[name].inputs[t][i].id == id;
      var i :| 0 <= i < |outputs[name].inputs[t]| && outputs[name].inputs[t][i].id == id;
      assert InputsOf(outputs[name], t) == PlanInputs(plan, name, t);
      var j := PlanInputFrom(plan, name, t, i);
    }
    if id in Ids(plan) {
      var j :| 0 <= j < |plan| && plan[j].input.id == id;
      var name, t := plan[j].output, plan[j].input.inputType;
      assert InputsOf(outputs[name], t) == PlanInputs(plan, name, t);
      var i := PlanInputAt(plan, j);
      assert outputs[name].inputs[t][i].id == id;
      assert HoldsId(outputs[name], id);
    }
  }

  lemma {:induction false} PlanInputFrom(plan: seq<Parsed>, name: string, t: string, i: nat) returns (j: nat)
    requires i < |PlanInputs(plan, name, t)|
    ensures j < |plan| && plan[j].input == PlanInputs(plan, name, t)[i]
  {
    var n := |plan| - 1;
    if i < |PlanInputs(plan[..n], name, t)| {
      j := PlanInputFrom(plan[..n], name, t, i);
    } else {
      j := n;
    }
  }

  lemma {:induction false} PlanInputAt(plan: seq<Parsed>, j: nat) returns (i: nat)
    requires j < |plan|
    ensures i < |PlanInputs(plan, plan[j].output, plan[j].input.inputType)|
    ensures PlanInputs(plan, plan[j].output, plan[j].input.inputType)[i] == plan[j].input
  {
    var n := |plan| - 1;
    if j < n {
      i := PlanInputAt(plan[..n], j);
    } else {
      i := |PlanInputs(plan[..n], plan[j].output, plan[j].input.inputType)|;
    }
  }

  // ---------- The whole policy ----------

  predicate InAgentSection(k: string) { k == "agent" || "agent." <= k }

  /** agentSection: what feature flags and limits are parsed from. */
  function AgentSection(policy: Config): Config {
    map k | k in policy && InAgentSection(k) :: policy[k]
  }

  /** The parsed outputs with no inputs yet, when every output parses. */
  ghost predicate ParsedOutputs(pc: ParseContext, outputs: Config, os: map<string, OutputI>) {
    os.Keys == outputs.Keys
        && forall name | name in outputs :: ParseOutputValue(pc, name, outputs[name]) == Ok(os[name])
  }

  ghost predicate BadOutput(pc: ParseContext, outputs: Config, name: string, e: Problem) {
    name in outputs && ParseOutputValue(pc, name, outputs[name]) == Err(e)
  }

  function Revision(policy: Config): Option<Value> {
    if "revision" in policy then Some(policy["revision"]) else None
  }

  /** The same outputs up to their inputs. */
  ghost predicate SameOutputs(a: map<string, OutputI>, b: map<string, OutputI>) {
    a.Keys == b.Keys && forall name | name in a :: a[name].(inputs := b[name].inputs) == b[name]
  }

  /** Only types with inputs are recorded. */
  ghost predicate NoEmptyTypes(outputs: map<string, OutputI>) {
    forall name | name in outputs :: forall t | t in outputs[name].inputs :: outputs[name].inputs[t] != []
  }

  /** What toIntermediate returns for a policy; with several bad outputs, any of their errors. */
  ghost predicate Parses(pc: ParseContext, policy: Config, r: Result<Option<map<string, OutputI>>, PolicyError>,
                         plan: seq<Parsed>) {
    if "outputs" !in policy then r == Ok(None)
    else if !policy["outputs"].Map? then r == Err(OutputsNotAMap)
    else
      var outputs := policy["outputs"].fields;
      if exists name, e :: BadOutput(pc, outputs, name, e) then
        r.Err? && r.error.OutputError? && BadOutput(pc, outputs, r.error.name, r.error.what)
      else if "inputs" !in policy then r == Ok(None)
      else if !policy["inputs"].List? then r == Err(InputsNotAList)
      else
        var inputs := policy["inputs"].elems;
        match PlanOf(pc, outputs.Keys, Revision(policy), inputs, |inputs|)
        case Err(e) => r == Err(e)
        case Ok(p) =>
          p == plan
          && if outputs == map[] then r == Ok(None)
             else r.Ok? && r.value.Some? && Consistent(r.value.value, plan) && NoEmptyTypes(r.value.value)
                  && exists os :: ParsedOutputs(pc, outputs, os) && SameOutputs(os, r.value.value)
  }
}
