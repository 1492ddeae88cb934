/** The component model of a whole policy: what is conserved from its inputs to its units. */
module ComponentModel {
  import opened Listing
  import opened Components

  /** The components of an input type; the sorted managers make them unique. */
  ghost function TypeComponents(cx: Context, t: string, output: OutputI): (comps: seq<Component>)
    ensures exists managers :: ComponentsOfType(cx, t, output, managers, comps)
  {
    if Isolated(cx, t) then
      var e := Enabled(InputsOf(output, t));
      var comps := seq(|e|, i requires 0 <= i < |e| => IsolatedComponent(cx, t, output, e[i]));
      assert ComponentsOfType(cx, t, output, [], comps);
      comps
    else
      var ms := Listed(ManagersOf(cx, t, output, InputsOf(output, t)));
      var comps := seq(|ms|, i requires 0 <= i < |ms| => GroupComponent(cx, t, output, ms[i]));
      assert ComponentsOfType(cx, t, output, ms, comps);
      comps
  }

  lemma TypeComponentsUnique(cx: Context, t: string, output: OutputI, managers: seq<string>, comps: seq<Component>)
    requires ComponentsOfType(cx, t, output, managers, comps)
    ensures comps == TypeComponents(cx, t, output)
  {
    hide GroupComponent, IsolatedComponent, Enabled;
    if !Isolated(cx, t) {
      var s := ManagersOf(cx, t, output, InputsOf(output, t));
      ListingUnique(managers, Listed(s), s);
    }
  }

  /** The components of an output, its types taken in the given order. */
  ghost function OutputComponents(cx: Context, output: OutputI, types: seq<string>): seq<Component> {
    if types == [] then []
    else OutputComponents(cx, output, types[..|types| - 1]) + TypeComponents(cx, types[|types| - 1], output)
  }

  ghost predicate Enumerates(types: seq<string>, keys: set<string>) {
    NoRepeats(types) && forall t :: t in types <==> t in keys
  }

  /** componentsForOutput: the input types are ranged in an arbitrary order. */
  method ComponentsForOutput(cx: Context, output: OutputI, cache: Cache)
    returns (comps: seq<Component>, ghost model: seq<Component>, ghost types: seq<string>)
    modifies cache
    ensures Enumerates(types, output.inputs.Keys) && model == OutputComponents(cx, output, types)
            && AllAlike(comps, model)
    ensures old(Steady(cx, cache, output)) ==>
              comps == model && Steady(cx, cache, output) && Grown(cache, old(UsedIn(cache)), ComponentSources(comps))
  {
    hide TypeComponents, ComponentsOfType, OutputComponents, Steady, UsedIn, ComponentSources, AllAlike;
    comps, model, types := [], [], [];
    NoSources();
    NoComponents(cx, output);
    var todo := output.inputs.Keys;
    while todo != {}
      invariant todo <= output.inputs.Keys
      invariant NoRepeats(types) && forall t :: t in types <==> t in output.inputs && t !in todo
      invariant model == OutputComponents(cx, output, types) && AllAlike(comps, model)
      invariant old(Steady(cx, cache, output)) ==>
                  comps == model && Steady(cx, cache, output)
                      && Grown(cache, old(UsedIn(cache)), ComponentSources(comps))
      decreases |todo|
    {
      var t :| t in todo;
      var some, its, managers := ComponentsForInputType(cx, t, output, cache);
      TypeComponentsUnique(cx, t, output, managers, its);
      // a component without units would be skipped; none is
      ComponentSourcesConcat(comps, some);
      AlikeConcat(comps, model, some, its);
      comps, model := comps + some, model + its;
      OutputComponentsSnoc(cx, output, types, t);
      types := types + [t];
      todo := todo - {t};
    }
  }

  lemma NoComponents(cx: Context, output: OutputI)
    ensures OutputComponents(cx, output, []) == [] && AllAlike([], [])
  {}

  lemma OutputComponentsSnoc(cx: Context, output: OutputI, types: seq<string>, t: string)
    ensures OutputComponents(cx, output, types + [t])
            == OutputComponents(cx, output, types) + TypeComponents(cx, t, output)
  {
    hide TypeComponents;
    assert (types + [t])[..|types|] == types;
  }

  lemma AlikeConcat(a: seq<Component>, b: seq<Component>, c: seq<Component>, d: seq<Component>)
    requires AllAlike(a, b) && AllAlike(c, d)
    ensures AllAlike(a + c, b + d)
  {
    hide Alike;
  }

  /** The components of the enabled outputs, outputs in the given order, each with its order of types. */
  ghost function ModelComponents(cx: Context, outputs: map<string, OutputI>, names: seq<string>,
                                 types: map<string, seq<string>>): seq<Component> {
    if names == [] then []
    else
      var name := names[|names| - 1];
      ModelComponents(cx, outputs, names[..|names| - 1], types)
      + (if name in outputs && outputs[name].enabled && name in types
          then OutputComponents(cx, outputs[name], types[name]) else [])
  }

  /** Every enabled output has an enumeration of its types. */
  ghost predicate Orders(outputs: map<string, OutputI>, types: map<string, seq<string>>) {
    forall name | name in outputs && outputs[name].enabled ::
        name in types && Enumerates(types[name], outputs[name].inputs.Keys)
  }

  /** There is no cache, or it is tidy and every output and input is canonical. */
  ghost predicate AllSteady(cx: Context, cache: Cache, outputs: map<string, OutputI>)
    reads cache
  {
    TidyCache(cx.env, cache) && forall name | name in outputs :: PlainFor(cx, cache, outputs[name])
  }

  /** The generation loop of PolicyToComponents: outputs in name order. */
  method GenerateComponents(cx: Context, outputs: map<string, OutputI>, cache: Cache)
    returns (comps: seq<Component>, ghost model: seq<Component>, ghost names: seq<string>,
            ghost types: map<string, seq<string>>)
    modifies cache
    ensures ListingOf(names, outputs.Keys) && Orders(outputs, types)
    ensures model == ModelComponents(cx, outputs, names, types) && AllAlike(comps, model)
    ensures old(AllSteady(cx, cache, outputs)) ==>
              comps == model && AllSteady(cx, cache, outputs)
                  && Grown(cache, old(UsedIn(cache)), ComponentSources(comps))
  {
    hide ModelComponents, OutputComponents, Enumerates, Sorted, UsedIn, ComponentSources, AllAlike, PlainFor, TidyCache;
    var ks := SortStrings(outputs.Keys);
    ListingNoRepeats(ks, outputs.Keys);
    names := ks;
    comps, model, types := [], [], map[];
    NoSources();
    NoModel(cx, outputs);
    for i := 0 to |ks|
      invariant forall j | 0 <= j < i && outputs[ks[j]].enabled ::
                ks[j] in types && Enumerates(types[ks[j]], outputs[ks[j]].inputs.Keys)
      invariant forall n | n in types :: n in ks[..i]
      invariant model == ModelComponents(cx, outputs, ks[..i], types) && AllAlike(comps, model)
      invariant old(AllSteady(cx, cache, outputs)) ==>
                  comps == model && AllSteady(cx, cache, outputs)
                      && Grown(cache, old(UsedIn(cache)), ComponentSources(comps))
    {
      assert ks[i] in outputs;
      if outputs[ks[i]].enabled {
        var some, its, order := ComponentsForOutput(cx, outputs[ks[i]], cache);
        ModelStep(cx, outputs, ks, i, types, order);
        ComponentSourcesConcat(comps, some);
        AlikeConcat(comps, model, some, its);
        types := types[ks[i] := order];
        comps, model := comps + some, model + its;
      } else {
        ModelSkips(cx, outputs, ks, i, types);
      }
    }
    assert ks[..|ks|] == ks;
    forall n | n in outputs && outputs[n].enabled ensures n in types && Enumerates(types[n], outputs[n].inputs.Keys) {
      assert n in ks;
    }
  }

  lemma NoModel(cx: Context, outputs: map<string, OutputI>)
    ensures ModelComponents(cx, outputs, [], map[]) == [] && AllAlike([], [])
  {}

  lemma ModelStep(cx: Context, outputs: map<string, OutputI>, ks: seq<string>, i: nat,
                  types: map<string, seq<string>>, order: seq<string>)
    requires i < |ks| && ks[i] !in ks[..i] && ks[i] in outputs && outputs[ks[i]].enabled
    ensures ModelComponents(cx, outputs, ks[..i + 1], types[ks[i] := order])
         == ModelComponents(cx, outputs, ks[..i], types) + OutputComponents(cx, outputs[ks[i]], order)
  {
    hide OutputComponents;
    assert ks[..i + 1][..i] == ks[..i];
    ModelComponentsFrame(cx, outputs, ks[..i], types, ks[i], order);
  }

  lemma ModelSkips(cx: Context, outputs: map<string, OutputI>, ks: seq<string>, i: nat, types: map<string, seq<string>>)
    requires i < |ks| && ks[i] in outputs && !outputs[ks[i]].enabled
    ensures ModelComponents(cx, outputs, ks[..i + 1], types) == ModelComponents(cx, outputs, ks[..i], types)
  {
    hide OutputComponents;
    assert ks[..i + 1][..i] == ks[..i];
  }

  lemma {:induction false} ModelComponentsFrame(cx: Context, outputs: map<string, OutputI>, names: seq<string>,
                                                types: map<string, seq<string>>, name: string, order: seq<string>)
    requires name !in names
    ensures ModelComponents(cx, outputs, names, types[name := order]) == ModelComponents(cx, outputs, names, types)
  {
    hide OutputComponents;
    if names != [] {
      ModelComponentsFrame(cx, outputs, names[..|names| - 1], types, name, order);
    }
  }

  // ---------- The shape of every component ----------

  /** At least one input unit, then exactly one output unit, whose ID is the component's. */
  predicate WellShaped(c: Component) {
    && |c.units| >= 2
    && c.units[|c.units| - 1].kind == OutputUnit && c.units[|c.units| - 1].id == c.id
    && forall i | 0 <= i < |c.units| - 1 :: c.units[i].kind == InputUnit
  }

  lemma MadeWellShaped(cx: Context, t: string, output: OutputI, id: string, inputs: seq<Unit>, manager: string,
                       dynamic: bool)
    requires inputs != [] && forall i | 0 <= i < |inputs| :: inputs[i].kind == InputUnit
    ensures WellShaped(MakeComponent(cx, t, output, id, inputs, manager, dynamic))
  {}

  lemma GroupNonEmpty(cx: Context, t: string, output: OutputI, inputs: seq<InputI>, manager: string)
    requires manager in ManagersOf(cx, t, output, inputs)
    ensures GroupOf(cx, t, output, inputs, manager) != []
  {
    hide Enabled, Manager;
    var j :| 0 <= j < |Enabled(inputs)| && Manager(cx, t, output, Enabled(inputs)[j]) == manager;
    assert Enabled(inputs)[j] in GroupOf(cx, t, output, inputs, manager);
  }

  lemma TypeComponentsWellShaped(cx: Context, t: string, output: OutputI, c: Component)
    requires c in TypeComponents(cx, t, output)
    ensures WellShaped(c) && c.outputName == output.name && c.inputType == t
  {
    hide WellShaped, Enabled, GroupOf, ManagersOf, InputUnitOf, ComponentId, ComponentErr;
    var inputs := InputsOf(output, t);
    if Isolated(cx, t) {
      var i :| 0 <= i < |Enabled(inputs)| && c == IsolatedComponent(cx, t, output, Enabled(inputs)[i]);
      var input := Enabled(inputs)[i];
      InputUnitIsInput(cx, t, output, input);
      MadeWellShaped(cx, t, output, ComponentId(cx, t, output, input.id), [InputUnitOf(cx, t, output, input)],
                     Manager(cx, t, output, input), input.dynamic);
    } else {
      var ms := Listed(ManagersOf(cx, t, output, inputs));
      var i :| 0 <= i < |ms| && c == GroupComponent(cx, t, output, ms[i]);
      assert ms[i] in ManagersOf(cx, t, output, inputs);
      GroupNonEmpty(cx, t, output, inputs, ms[i]);
      var group := GroupOf(cx, t, output, inputs, ms[i]);
      forall j | 0 <= j < |group| ensures Units(cx, t, output, group)[j].kind == InputUnit {
        InputUnitIsInput(cx, t, output, group[j]);
      }
      MadeWellShaped(cx, t, output, ComponentId(cx, t, output, ""), Units(cx, t, output, group), ms[i],
          AnyDynamic(Enabled(inputs)));
    }
  }

  lemma InputUnitIsInput(cx: Context, t: string, output: OutputI, input: InputI)
    ensures InputUnitOf(cx, t, output, input).kind == InputUnit
  {}

  lemma {:induction false} OutputComponentsFrom(cx: Context, output: OutputI, types: seq<string>, c: Component)
    returns (t: string)
    requires c in OutputComponents(cx, output, types)
    ensures t in types && c in TypeComponents(cx, t, output)
  {
    hide TypeComponents;
    var n := |types| - 1;
    if c in TypeComponents(cx, types[n], output) {
      t := types[n];
    } else {
      t := OutputComponentsFrom(cx, output, types[..n], c);
    }
  }

  lemma {:induction false} ModelComponentsFrom(cx: Context, outputs: map<string, OutputI>, names: seq<string>,
                                               types: map<string, seq<string>>, c: Component)
    returns (name: string, t: string)
    requires c in ModelComponents(cx, outputs, names, types)
    ensures name in names && name in outputs && outputs[name].enabled && name in types && t in types[name]
    ensures c in TypeComponents(cx, t, outputs[name])
  {
    hide TypeComponents, OutputComponents;
    name := names[|names| - 1];
    if name in outputs && outputs[name].enabled && name in types
        && c in OutputComponents(cx, outputs[name], types[name]) {
      t := OutputComponentsFrom(cx, outputs[name], types[name], c);
    } else {
      name, t := ModelComponentsFrom(cx, outputs, names[..|names| - 1], types, c);
    }
  }

  /** Every generated component is well shaped and belongs to an enabled output. */
  lemma EveryComponentWellShaped(cx: Context, outputs: map<string, OutputI>, names: seq<string>,
                                 types: map<string, seq<string>>, c: Component)
    requires c in ModelComponents(cx, outputs, names, types)
    ensures WellShaped(c)
    ensures exists name | name in outputs :: outputs[name].enabled && c.outputName == outputs[name].name
  {
    hide WellShaped, ModelComponents, TypeComponents;
    var name, t := ModelComponentsFrom(cx, outputs, names, types, c);
    TypeComponentsWellShaped(cx, t, outputs[name], c);
  }

  // ---------- Order independence ----------

  lemma {:induction false} OutputComponentsSum(cx: Context, output: OutputI, types: seq<string>)
    ensures multiset(OutputComponents(cx, output, types)) == Sum(t => multiset(TypeComponents(cx, t, output)), types)
  {
    hide TypeComponents;
    if types != [] { OutputComponentsSum(cx, output, types[..|types| - 1]); }
  }

  /** The order in which an output's types are ranged does not matter. */
  lemma OutputComponentsOrder(cx: Context, output: OutputI, a: seq<string>, b: seq<string>)
    requires Enumerates(a, output.inputs.Keys) && Enumerates(b, output.inputs.Keys)
    ensures multiset(OutputComponents(cx, output, a)) == multiset(OutputComponents(cx, output, b))
  {
    hide TypeComponents, OutputComponents;
    OutputComponentsSum(cx, output, a);
    OutputComponentsSum(cx, output, b);
    SumOrder(t => multiset(TypeComponents(cx, t, output)), a, b);
  }

  /** The bag of components does not depend on any map iteration order. */
  lemma {:induction false} ModelOrderIndependent(cx: Context, outputs: map<string, OutputI>, names: seq<string>,
                                                 a: map<string, seq<string>>, b: map<string, seq<string>>)
    requires Orders(outputs, a) && Orders(outputs, b)
    ensures multiset(ModelComponents(cx, outputs, names, a)) == multiset(ModelComponents(cx, outputs, names, b))
  {
    hide OutputComponents;
    if names != [] {
      ModelOrderIndependent(cx, outputs, names[..|names| - 1], a, b);
      var name := names[|names| - 1];
      if name in outputs && outputs[name].enabled {
        OutputComponentsOrder(cx, outputs[name], a[name], b[name]);
      }
    }
  }
}
