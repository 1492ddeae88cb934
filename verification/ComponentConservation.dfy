/** Every enabled input of an enabled output becomes exactly one input unit, in the right component. */
module ComponentConservation {
  import opened Listing
  import opened Components
  import opened ComponentModel

  /** An input unit and where it sits. */
  datatype Placement = Placement(componentId: string, outputName: string, inputType: string, manager: string,
                                 unit: Unit)

  function OutputOf(p: Placement): string { p.outputName }
  function TypeOf(p: Placement): string { p.inputType }
  function ManagerOf(p: Placement): string { p.manager }
  function KindOf(u: Unit): UnitType { u.kind }

  /** The input units of a component. */
  function PlacementsOf(c: Component): seq<Placement> {
    var us := Class(c.units, KindOf, InputUnit);
    seq(|us|, i requires 0 <= i < |us| => Placement(c.id, c.outputName, c.inputType, c.runtimeManager, us[i]))
  }

  function AllPlacements(comps: seq<Component>): seq<Placement> {
    if comps == [] then [] else AllPlacements(comps[..|comps| - 1]) + PlacementsOf(comps[|comps| - 1])
  }

  lemma {:induction false} AllPlacementsConcat(a: seq<Component>, b: seq<Component>)
    ensures AllPlacements(a + b) == AllPlacements(a) + AllPlacements(b)
  {
    hide PlacementsOf;
    if b == [] {
      assert a + b == a;
    } else {
      assert (a + b)[..|a + b| - 1] == a + b[..|b| - 1];
      AllPlacementsConcat(a, b[..|b| - 1]);
    }
  }

  /** Where an input must go. */
  function Expected(cx: Context, output: OutputI, input: InputI): Placement {
    var t := input.inputType;
    Placement(ComponentId(cx, t, output, input.id), output.name, t, Manager(cx, t, output, input),
        InputUnitOf(cx, t, output, input))
  }

  function ExpectedAll(cx: Context, output: OutputI, inputs: seq<InputI>): (ps: seq<Placement>)
    ensures |ps| == |inputs| && forall i | 0 <= i < |inputs| :: ps[i] == Expected(cx, output, inputs[i])
  {
    seq(|inputs|, i requires 0 <= i < |inputs| => Expected(cx, output, inputs[i]))
  }

  predicate OfType(inputs: seq<InputI>, t: string) {
    forall i | 0 <= i < |inputs| :: inputs[i].inputType == t
  }

  // ---------- One input type ----------

  lemma {:induction false} AllInClass(us: seq<Unit>)
    requires forall i | 0 <= i < |us| :: us[i].kind == InputUnit
    ensures Class(us, KindOf, InputUnit) == us
  {
    if us != [] {
      AllInClass(us[..|us| - 1]);
      assert us == us[..|us| - 1] + [us[|us| - 1]];
    }
  }

  lemma MadePlacements(cx: Context, t: string, output: OutputI, id: string, us: seq<Unit>, manager: string,
                       dynamic: bool)
    requires forall i | 0 <= i < |us| :: us[i].kind == InputUnit
    ensures var ps := PlacementsOf(MakeComponent(cx, t, output, id, us, manager, dynamic));
            |ps| == |us| && forall i | 0 <= i < |us| :: ps[i] == Placement(id, output.name, t, manager, us[i])
  {
    hide ComponentErr, SpecFor, StatusReporting;
    AllInClass(us);
    ClassSnoc(us, OutputUnitOf(cx, output, id), KindOf, InputUnit);
  }

  lemma {:induction false} ClassOfExpected(cx: Context, t: string, output: OutputI, inputs: seq<InputI>,
                                           manager: string)
    requires OfType(inputs, t)
    ensures Class(ExpectedAll(cx, output, inputs), ManagerOf, manager)
         == ExpectedAll(cx, output, Class(inputs, (i: InputI) => Manager(cx, t, output, i), manager))
  {
    hide InputUnitOf, ComponentId, Manager, Expected, ExpectedAll;
    if inputs != [] {
      var init, last := inputs[..|inputs| - 1], inputs[|inputs| - 1];
      assert inputs == init + [last];
      ClassOfExpected(cx, t, output, init, manager);
      ExpectedSnoc(cx, output, init, last);
      ClassSnoc(ExpectedAll(cx, output, init), Expected(cx, output, last), ManagerOf, manager);
      var key := (i: InputI) => Manager(cx, t, output, i);
      ClassSnoc(init, last, key, manager);
      ExpectedSnoc(cx, output, Class(init, key, manager), last);
      ExpectedManager(cx, output, last);
    }
  }

  lemma ExpectedSnoc(cx: Context, output: OutputI, inputs: seq<InputI>, last: InputI)
    ensures ExpectedAll(cx, output, inputs + [last]) == ExpectedAll(cx, output, inputs) + [Expected(cx, output, last)]
    ensures inputs + [] == inputs
  {
    hide Expected;
  }

  lemma ExpectedManager(cx: Context, output: OutputI, input: InputI)
    ensures ManagerOf(Expected(cx, output, input)) == Manager(cx, input.inputType, output, input)
  {}

  lemma ComponentIdShared(cx: Context, t: string, output: OutputI, a: string, b: string)
    requires !Isolated(cx, t)
    ensures ComponentId(cx, t, output, a) == ComponentId(cx, t, output, b)
  {}

  /** The input units of a manager's component are those expected there. */
  lemma GroupPlacements(cx: Context, t: string, output: OutputI, manager: string)
    requires !Isolated(cx, t) && OfType(InputsOf(output, t), t)
    ensures PlacementsOf(GroupComponent(cx, t, output, manager))
         == Class(ExpectedAll(cx, output, Enabled(InputsOf(output, t))), ManagerOf, manager)
  {
    hide InputUnitOf, ComponentId, Manager, PlacementsOf, Isolated;
    var enabled := Enabled(InputsOf(output, t));
    assert OfType(enabled, t) by { EnabledOfType(InputsOf(output, t), t); }
    ClassOfExpected(cx, t, output, enabled, manager);
    var group := GroupOf(cx, t, output, InputsOf(output, t), manager);
    var us := Units(cx, t, output, group);
    forall i | 0 <= i < |us| ensures us[i].kind == InputUnit { InputUnitIsInput(cx, t, output, group[i]); }
    MadePlacements(cx, t, output, ComponentId(cx, t, output, ""), us, manager, AnyDynamic(enabled));
    forall i | 0 <= i < |group|
      ensures Expected(cx, output, group[i])
              == Placement(ComponentId(cx, t, output, ""), output.name, t, manager, us[i])
    {
      assert group[i] in group;
      assert group[i] in enabled;
      ComponentIdShared(cx, t, output, group[i].id, "");
    }
  }

  lemma EnabledOfType(inputs: seq<InputI>, t: string)
    requires OfType(inputs, t)
    ensures OfType(Enabled(inputs), t) && forall i | i in Enabled(inputs) :: i in inputs && i.enabled
  {
    forall i | 0 <= i < |Enabled(inputs)| ensures Enabled(inputs)[i].inputType == t {
      assert Enabled(inputs)[i] in inputs;
    }
  }

  lemma {:induction false} GroupedPlacements(cx: Context, t: string, output: OutputI, managers: seq<string>,
                                             comps: seq<Component>)
    requires !Isolated(cx, t) && OfType(InputsOf(output, t), t) && |comps| == |managers|
    requires forall i | 0 <= i < |comps| :: comps[i] == GroupComponent(cx, t, output, managers[i])
    ensures multiset(AllPlacements(comps))
            == Classes(ExpectedAll(cx, output, Enabled(InputsOf(output, t))), ManagerOf, managers)
  {
    hide GroupComponent, PlacementsOf, ExpectedAll, Enabled, Isolated, Class;
    if comps != [] {
      var n := |comps| - 1;
      GroupedPlacements(cx, t, output, managers[..n], comps[..n]);
      GroupPlacements(cx, t, output, managers[n]);
    }
  }

  lemma IsolatedPlacement(cx: Context, t: string, output: OutputI, input: InputI)
    requires input.inputType == t
    ensures PlacementsOf(IsolatedComponent(cx, t, output, input)) == [Expected(cx, output, input)]
  {
    hide InputUnitOf, ComponentId, Manager, PlacementsOf;
    InputUnitIsInput(cx, t, output, input);
    MadePlacements(cx, t, output, ComponentId(cx, t, output, input.id), [InputUnitOf(cx, t, output, input)],
                   Manager(cx, t, output, input), input.dynamic);
  }

  lemma {:induction false} IsolatedPlacements(cx: Context, t: string, output: OutputI, inputs: seq<InputI>,
                                              comps: seq<Component>)
    requires OfType(inputs, t) && |comps| == |inputs|
    requires forall i | 0 <= i < |comps| :: comps[i] == IsolatedComponent(cx, t, output, inputs[i])
    ensures AllPlacements(comps) == ExpectedAll(cx, output, inputs)
  {
    hide IsolatedComponent, PlacementsOf, Expected;
    if comps != [] {
      var n := |comps| - 1;
      IsolatedPlacements(cx, t, output, inputs[..n], comps[..n]);
      IsolatedPlacement(cx, t, output, inputs[n]);
    }
  }

  /** The units generated for an input type are those of its enabled inputs. */
  lemma TypeConservation(cx: Context, t: string, output: OutputI)
    requires OfType(InputsOf(output, t), t)
    ensures multiset(AllPlacements(TypeComponents(cx, t, output)))
            == multiset(ExpectedAll(cx, output, Enabled(InputsOf(output, t))))
  {
    hide GroupComponent, IsolatedComponent, PlacementsOf, Manager, AllPlacements, Enabled, Isolated;
    var inputs := InputsOf(output, t);
    var enabled := Enabled(inputs);
    EnabledOfType(inputs, t);
    var comps := TypeComponents(cx, t, output);
    if Isolated(cx, t) {
      IsolatedPlacements(cx, t, output, enabled, comps);
    } else {
      var s := ManagersOf(cx, t, output, inputs);
      var ms := Listed(s);
      ListingNoRepeats(ms, s);
      GroupedPlacements(cx, t, output, ms, comps);
      var ps := ExpectedAll(cx, output, enabled);
      forall p | p in ps ensures ManagerOf(p) in ms {
        var i :| 0 <= i < |ps| && ps[i] == p;
        assert Manager(cx, t, output, enabled[i]) in s;
      }
      Partition(ps, ManagerOf, ms);
    }
  }

  // ---------- The whole policy ----------

  /** An input as parsed from the policy, with the output it is directed at. */
  datatype Parsed = Parsed(output: string, input: InputI)

  /** The inputs of one output and type, in policy order. */
  function PlanInputs(plan: seq<Parsed>, name: string, t: string): seq<InputI> {
    if plan == [] then []
    else
      var last := plan[|plan| - 1];
      PlanInputs(plan[..|plan| - 1], name, t)
          + (if last.output == name && last.input.inputType == t then [last.input] else [])
  }

  /** The outputs hold exactly the parsed inputs. */
  ghost predicate Consistent(outputs: map<string, OutputI>, plan: seq<Parsed>) {
    && (forall name | name in outputs :: outputs[name].name == name)
    && (forall name, t | name in outputs :: InputsOf(outputs[name], t) == PlanInputs(plan, name, t))
    && (forall i | 0 <= i < |plan| ::
        plan[i].output in outputs && plan[i].input.inputType in outputs[plan[i].output].inputs)
  }

  /** Where the enabled inputs of the enabled outputs must go, in policy order. */
  function PlanPlacements(cx: Context, outputs: map<string, OutputI>, plan: seq<Parsed>): seq<Placement> {
    if plan == [] then []
    else
      var last := plan[|plan| - 1];
      PlanPlacements(cx, outputs, plan[..|plan| - 1])
      + (if last.input.enabled && last.output in outputs && outputs[last.output].enabled
         then [Expected(cx, outputs[last.output], last.input)] else [])
  }

  /** Restricted to an enabled output and a type, the plan is that type's enabled inputs. */
  lemma {:induction false} PlanOfType(cx: Context, outputs: map<string, OutputI>, plan: seq<Parsed>, name: string,
                                      t: string)
    requires name in outputs && outputs[name].enabled && forall n | n in outputs :: outputs[n].name == n
    ensures Class(Class(PlanPlacements(cx, outputs, plan), OutputOf, name), TypeOf, t)
         == ExpectedAll(cx, outputs[name], Enabled(PlanInputs(plan, name, t)))
  {
    hide Expected, Class, Enabled, ExpectedAll;
    if plan != [] {
      var init, last := plan[..|plan| - 1], plan[|plan| - 1];
      PlanOfType(cx, outputs, init, name, t);
      var before := PlanPlacements(cx, outputs, init);
      if last.input.enabled && last.output in outputs && outputs[last.output].enabled {
        var p := Expected(cx, outputs[last.output], last.input);
        ClassSnoc(before, p, OutputOf, name);
        ExpectedKeys(cx, outputs[last.output], last.input);
        if last.output == name {
          ClassSnoc(Class(before, OutputOf, name), p, TypeOf, t);
          if last.input.inputType == t {
            PlanSnoc(cx, outputs[name], PlanInputs(init, name, t), last.input);
          } else {
            assert PlanInputs(plan, name, t) == PlanInputs(init, name, t);
          }
        } else {
          assert Class(before + [p], OutputOf, name) == Class(before, OutputOf, name);
          assert PlanInputs(plan, name, t) == PlanInputs(init, name, t);
        }
      } else {
        assert PlanPlacements(cx, outputs, plan) == before;
        if last.output == name && last.input.inputType == t {
          PlanSnoc(cx, outputs[name], PlanInputs(init, name, t), last.input);
        } else {
          assert PlanInputs(plan, name, t) == PlanInputs(init, name, t);
        }
      }
    } else {
      EmptyPlan(cx, outputs[name], name, t);
    }
  }

  lemma EmptyPlan(cx: Context, output: OutputI, name: string, t: string)
    ensures Class(Class([], OutputOf, name), TypeOf, t) == [] && ExpectedAll(cx, output, Enabled([])) == []
  {}

  lemma ExpectedKeys(cx: Context, output: OutputI, input: InputI)
    ensures Expected(cx, output, input).outputName == output.name
            && Expected(cx, output, input).inputType == input.inputType
  {}

  lemma PlanSnoc(cx: Context, output: OutputI, inputs: seq<InputI>, input: InputI)
    ensures ExpectedAll(cx, output, Enabled(inputs + [input]))
         == ExpectedAll(cx, output, Enabled(inputs)) + (if input.enabled then [Expected(cx, output, input)] else [])
  {
    hide Expected;
    ClassSnoc(inputs, input, (i: InputI) => i.enabled, true);
  }

  lemma {:induction false} PlanInputsOfType(plan: seq<Parsed>, name: string, t: string)
    ensures OfType(PlanInputs(plan, name, t), t)
  {
    if plan != [] { PlanInputsOfType(plan[..|plan| - 1], name, t); }
  }

  lemma {:induction false} OutputConservation(cx: Context, outputs: map<string, OutputI>, plan: seq<Parsed>,
                                              name: string, types: seq<string>)
    requires Consistent(outputs, plan) && name in outputs && outputs[name].enabled
    ensures multiset(AllPlacements(OutputComponents(cx, outputs[name], types)))
         == Classes(Class(PlanPlacements(cx, outputs, plan), OutputOf, name), TypeOf, types)
  {
    hide TypeComponents, Class, ExpectedAll, Enabled, PlanPlacements;
    if types != [] {
      var n := |types| - 1;
      OutputConservation(cx, outputs, plan, name, types[..n]);
      AllPlacementsConcat(OutputComponents(cx, outputs[name], types[..n]), TypeComponents(cx, types[n], outputs[name]));
      PlanInputsOfType(plan, name, types[n]);
      TypeConservation(cx, types[n], outputs[name]);
      PlanOfType(cx, outputs, plan, name, types[n]);
    }
  }

  lemma {:induction false} PlanMember(cx: Context, outputs: map<string, OutputI>, plan: seq<Parsed>, p: Placement)
    returns (i: nat)
    requires p in PlanPlacements(cx, outputs, plan)
    ensures i < |plan| && plan[i].output in outputs && outputs[plan[i].output].enabled && plan[i].input.enabled
    ensures p == Expected(cx, outputs[plan[i].output], plan[i].input)
  {
    hide Expected;
    var n := |plan| - 1;
    if p in PlanPlacements(cx, outputs, plan[..n]) {
      i := PlanMember(cx, outputs, plan[..n], p);
    } else {
      i := n;
    }
  }

  lemma OutputClass(cx: Context, outputs: map<string, OutputI>, plan: seq<Parsed>, name: string, types: seq<string>)
    requires Consistent(outputs, plan) && name in outputs && outputs[name].enabled
             && Enumerates(types, outputs[name].inputs.Keys)
    ensures multiset(AllPlacements(OutputComponents(cx, outputs[name], types)))
         == multiset(Class(PlanPlacements(cx, outputs, plan), OutputOf, name))
  {
    hide PlanPlacements, OutputComponents, AllPlacements, InputUnitOf, ComponentId, Manager;
    OutputConservation(cx, outputs, plan, name, types);
    var ps := Class(PlanPlacements(cx, outputs, plan), OutputOf, name);
    forall p | p in ps ensures TypeOf(p) in types {
      var i := PlanMember(cx, outputs, plan, p);
    }
    Partition(ps, TypeOf, types);
  }

  lemma DisabledClass(cx: Context, outputs: map<string, OutputI>, plan: seq<Parsed>, name: string)
    requires Consistent(outputs, plan) && name in outputs && !outputs[name].enabled
    ensures Class(PlanPlacements(cx, outputs, plan), OutputOf, name) == []
  {
    hide PlanPlacements, InputUnitOf, ComponentId, Manager;
    var ps := Class(PlanPlacements(cx, outputs, plan), OutputOf, name);
    if ps != [] {
      var p := ps[0];
      assert p in ps;
      var i := PlanMember(cx, outputs, plan, p);
      assert false;
    }
  }

  lemma {:induction false} ModelConservation(cx: Context, outputs: map<string, OutputI>, plan: seq<Parsed>,
                                             names: seq<string>, types: map<string, seq<string>>)
    requires Consistent(outputs, plan) && Orders(outputs, types) && forall i | 0 <= i < |names| :: names[i] in outputs
    ensures multiset(AllPlacements(ModelComponents(cx, outputs, names, types)))
            == Classes(PlanPlacements(cx, outputs, plan), OutputOf, names)
  {
    hide PlanPlacements, OutputComponents, Class, Consistent, Enumerates;
    if names != [] {
      var n := |names| - 1;
      var name := names[n];
      ModelConservation(cx, outputs, plan, names[..n], types);
      var before := ModelComponents(cx, outputs, names[..n], types);
      if outputs[name].enabled {
        AllPlacementsConcat(before, OutputComponents(cx, outputs[name], types[name]));
        OutputClass(cx, outputs, plan, name, types[name]);
      } else {
        assert before + [] == before;
        DisabledClass(cx, outputs, plan, name);
      }
    }
  }

  /** The input units over all components are, with multiplicity, those of the enabled inputs of
      enabled outputs: each in the component of its type, output and runtime manager. */
  lemma Conservation(cx: Context, outputs: map<string, OutputI>, plan: seq<Parsed>, names: seq<string>,
                     types: map<string, seq<string>>)
    requires Consistent(outputs, plan) && Orders(outputs, types) && ListingOf(names, outputs.Keys)
    ensures multiset(AllPlacements(ModelComponents(cx, outputs, names, types)))
            == multiset(PlanPlacements(cx, outputs, plan))
  {
    hide PlanPlacements, ModelComponents, AllPlacements, InputUnitOf, ComponentId, Manager;
    assert forall i | 0 <= i < |names| :: names[i] in names;
    ModelConservation(cx, outputs, plan, names, types);
    ListingNoRepeats(names, outputs.Keys);
    var ps := PlanPlacements(cx, outputs, plan);
    forall p | p in ps ensures OutputOf(p) in names {
      var i := PlanMember(cx, outputs, plan, p);
    }
    Partition(ps, OutputOf, names);
  }
}
