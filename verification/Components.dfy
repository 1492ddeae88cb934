/** From parsed outputs and inputs to components: grouping by runtime manager or by isolation. */
module Components {
  import opened Values
  import opened ExpectedConfigs
  import opened RuntimeSpecs
  import opened Listing
  import ConfigCache

  datatype LogLevel = LevelError | LevelWarn | LevelInfo | LevelDebug | LevelTrace

  /** An input of the intermediate form; runtimeManager is "" when the policy does not set one. */
  datatype InputI = InputI(
    idx: nat, id: string, enabled: bool, logLevel: LogLevel, inputType: string,
    runtimeManager: string, dynamic: bool, config: Config)

  datatype OutputI = OutputI(
    name: string, enabled: bool, logLevel: LogLevel, outputType: string, config: Config,
    inputs: map<string, seq<InputI>>)

  datatype UnitType = InputUnit | OutputUnit

  datatype Unit = Unit(id: string, kind: UnitType, logLevel: LogLevel, config: Field<UnitConfig>)

  datatype ComponentError = Lookup(e: LookupError) | InvalidId | OutputNotSupported

  /** What all components of a policy share: feature flags, limits and agent information. */
  datatype Shared = Shared(features: Value, limits: Value, agentInfo: Value)

  datatype Component = Component(
    id: string, err: Option<ComponentError>, spec: Option<InputRuntimeSpec>, inputType: string,
    outputType: string, outputName: string, units: seq<Unit>, runtimeManager: string,
    dynamic: bool, statusReporting: Option<bool>, shared: Shared)

  // ---------- Runtime managers ----------

  datatype BeatRuntime = BeatRuntime(default: string, inputTypes: map<string, string>)

  datatype RuntimeConfig = RuntimeConfig(
    default: string, auditbeat: BeatRuntime, filebeat: BeatRuntime, heartbeat: BeatRuntime,
    metricbeat: BeatRuntime, osquerybeat: BeatRuntime, packetbeat: BeatRuntime, output: map<string, string>)

  const PROCESS := "process"
  const OTEL := "otel"

  function BeatConfig(rc: RuntimeConfig, beat: string): Option<BeatRuntime> {
    if beat == "auditbeat" then Some(rc.auditbeat)
    else if beat == "filebeat" then Some(rc.filebeat)
    else if beat == "heartbeat" then Some(rc.heartbeat)
    else if beat == "metricbeat" then Some(rc.metricbeat)
    else if beat == "osquerybeat" then Some(rc.osquerybeat)
    else if beat == "packetbeat" then Some(rc.packetbeat)
    else None
  }

  /** RuntimeManagerForInputType. */
  function RuntimeManagerFor(rc: RuntimeConfig, inputType: string, beat: string, output: OutputI): string {
    if output.outputType in rc.output && output.enabled then rc.output[output.outputType]
    else
      var beatConfig := BeatConfig(rc, beat);
      if beatConfig.Some? && inputType in beatConfig.value.inputTypes then beatConfig.value.inputTypes[inputType]
      else if beatConfig.Some? && beatConfig.value.default != "" then beatConfig.value.default
      else if rc.default != "" then rc.default
      else PROCESS
  }

  /** CommandName and BeatName. */
  function CommandName(s: InputRuntimeSpec): string {
    if s.spec.command.Some? && s.spec.command.value.name != "" then s.spec.command.value.name
    else if s.spec.command.Some? && s.binaryName == "elastic-otel-collector" && |s.spec.command.value.args| > 0
    then s.spec.command.value.args[0]
    else s.binaryName
  }

  predicate HasSuffix(s: string, suffix: string) {
    |suffix| <= |s| && s[|s| - |suffix|..] == suffix
  }

  function BeatName(s: Option<InputRuntimeSpec>): string {
    if s.Some? && HasSuffix(CommandName(s.value), "beat") then CommandName(s.value) else ""
  }

  // ---------- One input type of one output ----------

  /** An iteration order of configuration maps. */
  type Order = c: Chooser | ValidChooser(c) ghost witness SomeOrder()

  ghost function SomeOrder(): (c: Chooser)
    ensures ValidChooser(c)
  {
    (path: string, keys: set<string>) => if keys == {} then "" else var k :| k in keys; k
  }

  /** What generation depends on: the specifications and runtime checks, the runtime configuration,
      the foreign check of component IDs, the foreign functions behind unit configurations, the
      iteration order of configuration maps, and what the components share. */
  datatype Context = Context(
    specs: Loaded, checks: InputSpec -> bool, runtime: RuntimeConfig,
    validId: string -> bool, env: Env, choose: Order, shared: Shared)

  /** The configuration of a unit, generated without a cache. */
  function Rendered(cx: Context, cfg: Config): Field<UnitConfig> { ExpectedConfigs.Expected(cx.env, cfg, cx.choose) }

  function SpecFor(cx: Context, t: string): Option<InputRuntimeSpec> { GetInput(cx.specs, t, cx.checks).0 }

  function LookupErr(cx: Context, t: string): Option<LookupError> { GetInput(cx.specs, t, cx.checks).1 }

  predicate Isolated(cx: Context, t: string) {
    LookupErr(cx, t).None? && SpecFor(cx, t).Some? && SpecFor(cx, t).value.spec.isolateUnits
  }

  predicate IsService(cx: Context, t: string) {
    SpecFor(cx, t).Some? && SpecFor(cx, t).value.spec.service
  }

  /** The ID of the component an input belongs to. */
  function ComponentId(cx: Context, t: string, output: OutputI, inputId: string): string {
    if Isolated(cx, t) then
      if IsService(cx, t) then t + "-" + inputId else t + "-" + output.name + "-" + inputId
    else
      if IsService(cx, t) then t else t + "-" + output.name
  }

  function ComponentErr(cx: Context, t: string, output: OutputI, id: string): Option<ComponentError> {
    if LookupErr(cx, t).Some? then Some(Lookup(LookupErr(cx, t).value))
    else if !cx.validId(id) then Some(InvalidId)
    else if SpecFor(cx, t).Some? && output.outputType !in SpecFor(cx, t).value.spec.outputs
        then Some(OutputNotSupported)
    else None
  }

  /** The input's explicit runtime manager, or the configured one. */
  function Manager(cx: Context, t: string, output: OutputI, input: InputI): string {
    if input.runtimeManager != "" then input.runtimeManager
    else RuntimeManagerFor(cx.runtime, input.inputType, BeatName(SpecFor(cx, t)), output)
  }

  function InputUnitOf(cx: Context, t: string, output: OutputI, input: InputI): Unit {
    var id := ComponentId(cx, t, output, input.id);
    Unit(if Isolated(cx, t) then id + "-unit" else id + "-" + input.id,
         InputUnit, input.logLevel, Rendered(cx, input.config))
  }

  function OutputUnitOf(cx: Context, output: OutputI, id: string): Unit {
    Unit(id, OutputUnit, output.logLevel, Rendered(cx, output.config))
  }

  function StatusReporting(cfg: Config): Option<bool> {
    if "status_reporting" in cfg && cfg["status_reporting"].Map?
       && "enabled" in cfg["status_reporting"].fields && cfg["status_reporting"].fields["enabled"].Bool?
    then Some(cfg["status_reporting"].fields["enabled"].b) else None
  }

  function WithUnits(cx: Context, t: string, output: OutputI, id: string, units: seq<Unit>, manager: string,
                     dynamic: bool): Component {
    Component(id, ComponentErr(cx, t, output, id), SpecFor(cx, t), t, output.outputType, output.name,
              units, manager, dynamic, StatusReporting(output.config), cx.shared)
  }

  function MakeComponent(cx: Context, t: string, output: OutputI, id: string, inputs: seq<Unit>, manager: string,
                         dynamic: bool): Component {
    WithUnits(cx, t, output, id, inputs + [OutputUnitOf(cx, output, id)], manager, dynamic)
  }

  function Enabled(inputs: seq<InputI>): seq<InputI> {
    Class(inputs, (i: InputI) => i.enabled, true)
  }

  function Units(cx: Context, t: string, output: OutputI, inputs: seq<InputI>): (us: seq<Unit>)
    ensures |us| == |inputs|
    ensures forall i | 0 <= i < |inputs| :: us[i] == InputUnitOf(cx, t, output, inputs[i])
  {
    seq(|inputs|, i requires 0 <= i < |inputs| => InputUnitOf(cx, t, output, inputs[i]))
  }

  /** The enabled inputs run by one manager, in policy order. */
  function GroupOf(cx: Context, t: string, output: OutputI, inputs: seq<InputI>, manager: string): seq<InputI> {
    Class(Enabled(inputs), (i: InputI) => Manager(cx, t, output, i), manager)
  }

  predicate AnyDynamic(inputs: seq<InputI>) {
    exists i | 0 <= i < |inputs| :: inputs[i].dynamic
  }

  function InputsOf(output: OutputI, t: string): seq<InputI> {
    if t in output.inputs then output.inputs[t] else []
  }

  /** The component of one runtime manager; its dynamic flag is taken over all enabled inputs of the type. */
  function GroupComponent(cx: Context, t: string, output: OutputI, manager: string): Component {
    var inputs := InputsOf(output, t);
    MakeComponent(cx, t, output, ComponentId(cx, t, output, ""),
                  Units(cx, t, output, GroupOf(cx, t, output, inputs, manager)), manager, AnyDynamic(Enabled(inputs)))
  }

  function IsolatedComponent(cx: Context, t: string, output: OutputI, input: InputI): Component {
    MakeComponent(cx, t, output, ComponentId(cx, t, output, input.id),
                  [InputUnitOf(cx, t, output, input)], Manager(cx, t, output, input), input.dynamic)
  }

  ghost function ManagersOf(cx: Context, t: string, output: OutputI, inputs: seq<InputI>): set<string> {
    set i | 0 <= i < |Enabled(inputs)| :: Manager(cx, t, output, Enabled(inputs)[i])
  }

  /** The components of one input type of one output. */
  ghost predicate ComponentsOfType(cx: Context, t: string, output: OutputI, managers: seq<string>,
                                   comps: seq<Component>) {
    var inputs := InputsOf(output, t);
    if Isolated(cx, t) then
      |comps| == |Enabled(inputs)|
      && forall i | 0 <= i < |comps| :: comps[i] == IsolatedComponent(cx, t, output, Enabled(inputs)[i])
    else
      ListingOf(managers, ManagersOf(cx, t, output, inputs))
      && |comps| == |managers|
      && forall i | 0 <= i < |comps| :: comps[i] == GroupComponent(cx, t, output, managers[i])
  }

  // ---------- The cache of unit configurations ----------

  type Cache = ConfigCache.ExpectedConfigCache?

  /** The configurations of an output and its inputs are canonical. */
  ghost predicate PlainOutput(env: Env, output: OutputI) {
    Canonical(env, Map(output.config))
    && forall t, i | t in output.inputs && 0 <= i < |output.inputs[t]| ::
        Canonical(env, Map(output.inputs[t][i].config))
  }

  ghost predicate PlainFor(cx: Context, cache: Cache, output: OutputI) {
    cache != null ==> PlainOutput(cx.env, output)
  }

  /** There is no cache, or it uses the same foreign functions and has seen canonical configurations only. */
  ghost predicate TidyCache(env: Env, cache: Cache)
    reads cache
  {
    cache != null ==> cache.env == env && Lawful(env) && ConfigCache.Tidy(env, cache.entries)
  }

  /** There is no cache, or it is tidy and the output and its inputs are canonical. */
  ghost predicate Steady(cx: Context, cache: Cache, output: OutputI)
    reads cache
  {
    TidyCache(cx.env, cache) && PlainFor(cx, cache, output)
  }

  ghost function UsedIn(cache: Cache): set<Struct>
    reads cache
  {
    if cache == null then {} else ConfigCache.Used(cache.entries)
  }

  ghost function UnitSources(us: seq<Unit>): set<Struct> {
    set i | 0 <= i < |us| && us[i].config.Ok? :: us[i].config.value.source
  }

  ghost function ComponentSources(comps: seq<Component>): set<Struct> {
    set i, j | 0 <= i < |comps| && 0 <= j < |comps[i].units| && comps[i].units[j].config.Ok? ::
        comps[i].units[j].config.value.source
  }

  /** The sources used are those used before and the given ones. */
  ghost predicate Grown(cache: Cache, before: set<Struct>, more: set<Struct>)
    reads cache
  {
    cache != null ==> UsedIn(cache) == before + more
  }

  /** Units that differ in nothing but their configurations. */
  predicate SameUnit(a: Unit, b: Unit) { a.(config := b.config) == b }

  predicate SameUnits(a: seq<Unit>, b: seq<Unit>) {
    |a| == |b| && forall i | 0 <= i < |a| :: SameUnit(a[i], b[i])
  }

  predicate Alike(a: Component, b: Component) { a.(units := b.units) == b && SameUnits(a.units, b.units) }

  predicate AllAlike(a: seq<Component>, b: seq<Component>) {
    |a| == |b| && forall i | 0 <= i < |a| :: Alike(a[i], b[i])
  }

  /** The nil-safe lookup of unitForInput and unitForOutput. */
  method Render(cx: Context, cache: Cache, cfg: Config) returns (r: Field<UnitConfig>)
    modifies cache
    ensures cache == null ==> r == Rendered(cx, cfg)
    ensures cache != null && old(TidyCache(cx.env, cache)) && Canonical(cx.env, Map(cfg)) ==>
              && r == Rendered(cx, cfg) && TidyCache(cx.env, cache)
              && UsedIn(cache) == old(UsedIn(cache)) + (if r.Ok? then {r.value.source} else {})
  {
    hide ExpectedConfigs.Expected;
    if cache == null {
      r := ExpectedConfigs.ExpectedConfig(cx.env, cfg, cx.choose);
    } else {
      ghost var before := cache.entries;
      r := cache.ExpectedConfig(cfg, cx.choose);
      if cache.env == cx.env && Lawful(cx.env) && ConfigCache.Tidy(cx.env, before) && Canonical(cx.env, Map(cfg)) {
        ConfigCache.LookupRefines(cx.env, before, cfg, cx.choose);
      }
    }
  }

  /** unitForInput. */
  method UnitForInput(cx: Context, t: string, output: OutputI, input: InputI, cache: Cache) returns (u: Unit)
    requires input in InputsOf(output, t)
    modifies cache
    ensures SameUnit(u, InputUnitOf(cx, t, output, input))
    ensures old(Steady(cx, cache, output)) ==>
              u == InputUnitOf(cx, t, output, input) && Steady(cx, cache, output)
                  && Grown(cache, old(UsedIn(cache)), UnitSources([u]))
  {
    hide ComponentId, Isolated;
    var id := ComponentId(cx, t, output, input.id);
    var config := Render(cx, cache, input.config);
    u := Unit(if Isolated(cx, t) then id + "-unit" else id + "-" + input.id, InputUnit, input.logLevel, config);
    OneUnit(u);
  }

  /** unitForOutput. */
  method UnitForOutput(cx: Context, output: OutputI, id: string, cache: Cache) returns (u: Unit)
    modifies cache
    ensures SameUnit(u, OutputUnitOf(cx, output, id))
    ensures old(Steady(cx, cache, output)) ==>
              u == OutputUnitOf(cx, output, id) && Steady(cx, cache, output)
                  && Grown(cache, old(UsedIn(cache)), UnitSources([u]))
  {
    var config := Render(cx, cache, output.config);
    u := Unit(id, OutputUnit, output.logLevel, config);
    OneUnit(u);
  }

  lemma OneUnit(u: Unit)
    ensures UnitSources([u]) == if u.config.Ok? then {u.config.value.source} else {}
  {
    assert [u][0] == u;
  }

  lemma SourcesConcat(a: seq<Unit>, b: seq<Unit>)
    ensures UnitSources(a + b) == UnitSources(a) + UnitSources(b)
  {
    forall x | x in UnitSources(b) ensures x in UnitSources(a + b) {
      var i :| 0 <= i < |b| && b[i].config.Ok? && b[i].config.value.source == x;
      assert (a + b)[|a| + i] == b[i];
    }
    forall x | x in UnitSources(a) ensures x in UnitSources(a + b) {
      var i :| 0 <= i < |a| && a[i].config.Ok? && a[i].config.value.source == x;
      assert (a + b)[i] == a[i];
    }
  }

  lemma ComponentSourcesSnoc(comps: seq<Component>, c: Component)
    ensures ComponentSources(comps + [c]) == ComponentSources(comps) + UnitSources(c.units)
  {
    var all := comps + [c];
    forall x | x in ComponentSources(comps) ensures x in ComponentSources(all) {
      var i, j :| 0 <= i < |comps| && 0 <= j < |comps[i].units| && comps[i].units[j].config.Ok?
          && comps[i].units[j].config.value.source == x;
      assert all[i] == comps[i];
    }
    forall x | x in UnitSources(c.units) ensures x in ComponentSources(all) {
      var j :| 0 <= j < |c.units| && c.units[j].config.Ok? && c.units[j].config.value.source == x;
      assert all[|comps|] == c;
    }
  }

  lemma ComponentSourcesConcat(a: seq<Component>, b: seq<Component>)
    ensures ComponentSources(a + b) == ComponentSources(a) + ComponentSources(b)
  {
    if b == [] {
      assert a + b == a;
    } else {
      var n := |b| - 1;
      hide ComponentSources;
      ComponentSourcesConcat(a, b[..n]);
      assert a + b == a + b[..n] + [b[n]] && b == b[..n] + [b[n]];
      ComponentSourcesSnoc(a + b[..n], b[n]);
      ComponentSourcesSnoc(b[..n], b[n]);
    }
  }

  lemma EnabledSnoc(inputs: seq<InputI>, i: nat)
    requires i < |inputs|
    ensures Enabled(inputs[..i + 1]) == Enabled(inputs[..i]) + (if inputs[i].enabled then [inputs[i]] else [])
  {
    assert inputs[..i + 1] == inputs[..i] + [inputs[i]];
    ClassSnoc(inputs[..i], inputs[i], (x: InputI) => x.enabled, true);
  }

  // ---------- The loops ----------

  /** componentsForInputType. The components are those of the model, up to the configurations of their
      units; and exactly those when there is no cache or everything is canonical, the sources of the
      units being the ones used. */
  method ComponentsForInputType(cx: Context, t: string, output: OutputI, cache: Cache)
    returns (comps: seq<Component>, ghost model: seq<Component>, ghost managers: seq<string>)
    modifies cache
    ensures ComponentsOfType(cx, t, output, managers, model) && AllAlike(comps, model)
    ensures old(Steady(cx, cache, output)) ==>
              comps == model && Steady(cx, cache, output) && Grown(cache, old(UsedIn(cache)), ComponentSources(comps))
  {
    if Isolated(cx, t) {
      comps, model := IsolatedComponents(cx, t, output, cache);
      managers := [];
    } else {
      comps, model, managers := GroupedComponents(cx, t, output, cache);
    }
  }

  ghost function GroupSources(unitsFor: map<string, seq<Unit>>): set<Struct> {
    set m, j | m in unitsFor && 0 <= j < |unitsFor[m]| && unitsFor[m][j].config.Ok? ::
        unitsFor[m][j].config.value.source
  }

  lemma GroupSourcesStep(unitsFor: map<string, seq<Unit>>, m: string, u: Unit)
    ensures var units := if m in unitsFor then unitsFor[m] else [];
            GroupSources(unitsFor[m := units + [u]]) == GroupSources(unitsFor) + UnitSources([u])
  {
    var units := if m in unitsFor then unitsFor[m] else [];
    var after := unitsFor[m := units + [u]];
    OneUnit(u);
    assert after[m][|units|] == u;
    forall x | x in GroupSources(unitsFor) ensures x in GroupSources(after) {
      var k, j :| k in unitsFor && 0 <= j < |unitsFor[k]| && unitsFor[k][j].config.Ok?
          && unitsFor[k][j].config.value.source == x;
      assert after[k][j] == unitsFor[k][j];
    }
  }

  /** The grouping loop: enabled inputs are appended to the units of their runtime manager. */
  method GroupByManager(cx: Context, t: string, output: OutputI, cache: Cache)
    returns (unitsFor: map<string, seq<Unit>>, dynamic: bool)
    requires !Isolated(cx, t)
    modifies cache
    ensures unitsFor.Keys == ManagersOf(cx, t, output, InputsOf(output, t))
    ensures forall m | m in unitsFor ::
            SameUnits(unitsFor[m], Units(cx, t, output, GroupOf(cx, t, output, InputsOf(output, t), m)))
    ensures dynamic == AnyDynamic(Enabled(InputsOf(output, t)))
    ensures old(Steady(cx, cache, output)) ==>
              && (forall m | m in unitsFor ::
                  unitsFor[m] == Units(cx, t, output, GroupOf(cx, t, output, InputsOf(output, t), m)))
              && Steady(cx, cache, output) && Grown(cache, old(UsedIn(cache)), GroupSources(unitsFor))
  {
    hide GroupOf, Units, Enabled, ManagersOf, Manager, InputUnitOf, AnyDynamic, Steady, UsedIn, GroupSources,
         UnitSources, SameUnit;
    var inputs := InputsOf(output, t);
    unitsFor, dynamic := map[], false;
    GroupStart(cx, t, output, inputs);
    NoSources();
    for i := 0 to |inputs|
      invariant unitsFor.Keys == ManagersOf(cx, t, output, inputs[..i])
      invariant forall m | m in unitsFor ::
                SameUnits(unitsFor[m], Units(cx, t, output, GroupOf(cx, t, output, inputs[..i], m)))
      invariant dynamic == AnyDynamic(Enabled(inputs[..i]))
      invariant old(Steady(cx, cache, output)) ==>
                  && (forall m | m in unitsFor ::
                      unitsFor[m] == Units(cx, t, output, GroupOf(cx, t, output, inputs[..i], m)))
                  && Steady(cx, cache, output) && Grown(cache, old(UsedIn(cache)), GroupSources(unitsFor))
    {
      if !inputs[i].enabled {
        GroupSkip(cx, t, output, inputs, i);
      } else {
        var input := inputs[i];
        var manager := Manager(cx, t, output, input);
        GroupStep(cx, t, output, inputs, i, manager);
        var unit := UnitForInput(cx, t, output, input, cache);
        GroupSourcesStep(unitsFor, manager, unit);
        var units := if manager in unitsFor then unitsFor[manager] else [];
        unitsFor := unitsFor[manager := units + [unit]];
        dynamic := dynamic || input.dynamic;
      }
    }
    assert inputs[..|inputs|] == inputs;
  }

  lemma NoSources()
    ensures GroupSources(map[]) == {} && ComponentSources([]) == {}
  {}

  method GroupedComponents(cx: Context, t: string, output: OutputI, cache: Cache)
    returns (comps: seq<Component>, ghost model: seq<Component>, ghost managers: seq<string>)
    requires !Isolated(cx, t)
    modifies cache
    ensures ComponentsOfType(cx, t, output, managers, model) && AllAlike(comps, model)
    ensures old(Steady(cx, cache, output)) ==>
              comps == model && Steady(cx, cache, output) && Grown(cache, old(UsedIn(cache)), ComponentSources(comps))
  {
    hide Steady, UsedIn, GroupSources, ComponentSources, UnitSources, GroupOf, Units, Enabled, ManagersOf,
         GroupComponent, Alike, SameUnits, Holds;
    var unitsFor, dynamic := GroupByManager(cx, t, output, cache);
    var ks := SortStrings(unitsFor.Keys);
    managers := ks;
    comps, model := [], [];
    NoSources();
    for i := 0 to |ks|
      invariant |comps| == |model| == i
      invariant forall j | 0 <= j < i :: model[j] == GroupComponent(cx, t, output, ks[j])
      invariant forall j | 0 <= j < i :: Alike(comps[j], model[j]) && Holds(comps[j], unitsFor[ks[j]])
      invariant old(Steady(cx, cache, output)) ==>
                  comps == model && Steady(cx, cache, output)
                      && Grown(cache, old(UsedIn(cache)), GroupSources(unitsFor) + ComponentSources(comps))
    {
      assert ks[i] in unitsFor.Keys;
      var c, unit := GroupedOne(cx, t, output, unitsFor[ks[i]], ks[i], dynamic, cache);
      ComponentSourcesSnoc(comps, c);
      InGroup(unitsFor, ks[i]);
      Absorbed(old(UsedIn(cache)), GroupSources(unitsFor), ComponentSources(comps), UnitSources(unitsFor[ks[i]]),
          UnitSources([unit]));
      model := model + [GroupComponent(cx, t, output, ks[i])];
      comps := comps + [c];
    }
    GroupsCovered(unitsFor, ks, comps);
  }

  method GroupedOne(cx: Context, t: string, output: OutputI, units: seq<Unit>, manager: string, dynamic: bool,
                    cache: Cache)
    returns (c: Component, ghost unit: Unit)
    requires dynamic == AnyDynamic(Enabled(InputsOf(output, t)))
    requires SameUnits(units, Units(cx, t, output, GroupOf(cx, t, output, InputsOf(output, t), manager)))
    modifies cache
    ensures Alike(c, GroupComponent(cx, t, output, manager)) && Holds(c, units)
    ensures UnitSources(c.units) == UnitSources(units) + UnitSources([unit])
    ensures old(Steady(cx, cache, output))
            && units == Units(cx, t, output, GroupOf(cx, t, output, InputsOf(output, t), manager)) ==>
              c == GroupComponent(cx, t, output, manager) && Steady(cx, cache, output)
                  && Grown(cache, old(UsedIn(cache)), UnitSources([unit]))
  {
    hide Steady, UsedIn, UnitSources, OutputUnitOf, ComponentErr, SpecFor, GroupOf, Units, Enabled, StatusReporting,
         ComponentId;
    var id := ComponentId(cx, t, output, "");
    var u := UnitForOutput(cx, output, id, cache);
    unit := u;
    SourcesConcat(units, [u]);
    c := WithUnits(cx, t, output, id, units + [u], manager, dynamic);
  }

  predicate Holds(c: Component, units: seq<Unit>) { units <= c.units }

  lemma Absorbed<T>(before: set<T>, groups: set<T>, made: set<T>, units: set<T>, more: set<T>)
    requires units <= groups
    ensures before + (groups + made) + more == before + (groups + (made + (units + more)))
  {}

  lemma InGroup(unitsFor: map<string, seq<Unit>>, m: string)
    requires m in unitsFor
    ensures UnitSources(unitsFor[m]) <= GroupSources(unitsFor)
  {}

  lemma GroupsCovered(unitsFor: map<string, seq<Unit>>, ks: seq<string>, comps: seq<Component>)
    requires |comps| == |ks|
             && (forall k :: k in ks <==> k in unitsFor) && forall j | 0 <= j < |ks| :: Holds(comps[j], unitsFor[ks[j]])
    ensures GroupSources(unitsFor) <= ComponentSources(comps)
  {
    forall x | x in GroupSources(unitsFor) ensures x in ComponentSources(comps) {
      var m, j :| m in unitsFor && 0 <= j < |unitsFor[m]| && unitsFor[m][j].config.Ok?
          && unitsFor[m][j].config.value.source == x;
      var i :| 0 <= i < |ks| && ks[i] == m;
      assert comps[i].units[j] == unitsFor[m][j];
    }
  }

  method IsolatedComponents(cx: Context, t: string, output: OutputI, cache: Cache)
    returns (comps: seq<Component>, ghost model: seq<Component>)
    requires Isolated(cx, t)
    modifies cache
    ensures ComponentsOfType(cx, t, output, [], model) && AllAlike(comps, model)
    ensures old(Steady(cx, cache, output)) ==>
              comps == model && Steady(cx, cache, output) && Grown(cache, old(UsedIn(cache)), ComponentSources(comps))
  {
    hide Steady, UsedIn, ComponentSources, UnitSources, OutputUnitOf, InputUnitOf, ComponentErr, SpecFor, Enabled,
         StatusReporting, ComponentId, Manager;
    var inputs := InputsOf(output, t);
    comps, model := [], [];
    NoSources();
    NoneEnabled(inputs);
    for i := 0 to |inputs|
      invariant |model| == |Enabled(inputs[..i])| && AllAlike(comps, model)
      invariant forall j | 0 <= j < |model| :: model[j] == IsolatedComponent(cx, t, output, Enabled(inputs[..i])[j])
      invariant old(Steady(cx, cache, output)) ==>
                  comps == model && Steady(cx, cache, output)
                      && Grown(cache, old(UsedIn(cache)), ComponentSources(comps))
    {
      EnabledSnoc(inputs, i);
      if inputs[i].enabled {
        var c := IsolatedOne(cx, t, output, inputs[i], cache);
        ComponentSourcesSnoc(comps, c);
        model := model + [IsolatedComponent(cx, t, output, inputs[i])];
        comps := comps + [c];
      }
    }
    assert inputs[..|inputs|] == inputs;
  }

  lemma NoneEnabled(inputs: seq<InputI>)
    ensures Enabled(inputs[..0]) == []
  {
    assert inputs[..0] == [];
  }

  method IsolatedOne(cx: Context, t: string, output: OutputI, input: InputI, cache: Cache) returns (c: Component)
    requires Isolated(cx, t) && input in InputsOf(output, t)
    modifies cache
    ensures Alike(c, IsolatedComponent(cx, t, output, input))
    ensures old(Steady(cx, cache, output)) ==>
              c == IsolatedComponent(cx, t, output, input) && Steady(cx, cache, output)
                  && Grown(cache, old(UsedIn(cache)), UnitSources(c.units))
  {
    hide Steady, UsedIn, UnitSources, OutputUnitOf, InputUnitOf, ComponentErr, SpecFor, StatusReporting, ComponentId,
         Manager;
    var id := ComponentId(cx, t, output, input.id);
    var unit := UnitForInput(cx, t, output, input, cache);
    var out := UnitForOutput(cx, output, id, cache);
    SourcesConcat([unit], [out]);
    assert [unit] + [out] == [unit, out];
    c := WithUnits(cx, t, output, id, [unit, out], Manager(cx, t, output, input), input.dynamic);
  }

  lemma GroupStart(cx: Context, t: string, output: OutputI, inputs: seq<InputI>)
    ensures ManagersOf(cx, t, output, inputs[..0]) == {} && !AnyDynamic(Enabled(inputs[..0]))
  {
    assert inputs[..0] == [];
  }

  lemma GroupSkip(cx: Context, t: string, output: OutputI, inputs: seq<InputI>, i: nat)
    requires i < |inputs| && !inputs[i].enabled
    ensures ManagersOf(cx, t, output, inputs[..i + 1]) == ManagersOf(cx, t, output, inputs[..i])
    ensures forall m :: GroupOf(cx, t, output, inputs[..i + 1], m) == GroupOf(cx, t, output, inputs[..i], m)
    ensures AnyDynamic(Enabled(inputs[..i + 1])) == AnyDynamic(Enabled(inputs[..i]))
  {
    EnabledSnoc(inputs, i);
    assert Enabled(inputs[..i + 1]) == Enabled(inputs[..i]);
  }

  /** How the groups change with one more enabled input. */
  lemma GroupStep(cx: Context, t: string, output: OutputI, inputs: seq<InputI>, i: nat, manager: string)
    requires i < |inputs| && inputs[i].enabled && manager == Manager(cx, t, output, inputs[i])
    ensures ManagersOf(cx, t, output, inputs[..i + 1]) == ManagersOf(cx, t, output, inputs[..i]) + {manager}
    ensures forall m | m != manager ::
            GroupOf(cx, t, output, inputs[..i + 1], m) == GroupOf(cx, t, output, inputs[..i], m)
    ensures GroupOf(cx, t, output, inputs[..i + 1], manager)
            == GroupOf(cx, t, output, inputs[..i], manager) + [inputs[i]]
    ensures manager !in ManagersOf(cx, t, output, inputs[..i]) ==> GroupOf(cx, t, output, inputs[..i], manager) == []
    ensures Units(cx, t, output, GroupOf(cx, t, output, inputs[..i], manager) + [inputs[i]])
         == Units(cx, t, output, GroupOf(cx, t, output, inputs[..i], manager)) + [InputUnitOf(cx, t, output, inputs[i])]
    ensures Units(cx, t, output, []) == []
    ensures AnyDynamic(Enabled(inputs[..i + 1])) == (AnyDynamic(Enabled(inputs[..i])) || inputs[i].dynamic)
  {
    hide Manager, InputUnitOf, Enabled, Class;
    EnabledSnoc(inputs, i);
    var before, after := Enabled(inputs[..i]), Enabled(inputs[..i + 1]);
    forall m
      ensures GroupOf(cx, t, output, inputs[..i + 1], m)
              == GroupOf(cx, t, output, inputs[..i], m) + (if m == manager then [inputs[i]] else [])
    {
      ClassSnoc(before, inputs[i], (x: InputI) => Manager(cx, t, output, x), m);
    }
    assert forall j | 0 <= j < |before| :: after[j] == before[j];
    assert after[|before|] == inputs[i];
    NoGroup(cx, t, output, inputs[..i], manager);
  }

  lemma NoGroup(cx: Context, t: string, output: OutputI, inputs: seq<InputI>, manager: string)
    ensures GroupOf(cx, t, output, inputs, manager) != [] ==> manager in ManagersOf(cx, t, output, inputs)
  {
    hide Manager, Enabled;
    var group := GroupOf(cx, t, output, inputs, manager);
    if group != [] {
      assert group[0] in group;
      var j :| 0 <= j < |Enabled(inputs)| && Enabled(inputs)[j] == group[0];
    }
  }
}
