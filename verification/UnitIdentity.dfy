/** Unit identifiers: distinct within a component, and reversible for beats. */
module UnitIdentity {
  import opened Values
  import opened Listing
  import opened Components
  import opened ComponentModel
  import opened ComponentConservation

  predicate DistinctIds(inputs: seq<InputI>) {
    forall i, j | 0 <= i < j < |inputs| :: inputs[i].id != inputs[j].id
  }

  predicate DistinctPlan(plan: seq<Parsed>) {
    forall i, j | 0 <= i < j < |plan| :: plan[i].input.id != plan[j].input.id
  }

  predicate DistinctUnits(us: seq<Unit>) {
    forall i, j | 0 <= i < j < |us| :: us[i].id != us[j].id
  }

  lemma {:induction false} PlanInputsDistinct(plan: seq<Parsed>, name: string, t: string)
    requires DistinctPlan(plan)
    ensures DistinctIds(PlanInputs(plan, name, t))
    ensures forall x | x in PlanInputs(plan, name, t) :: exists i | 0 <= i < |plan| :: plan[i].input == x
  {
    if plan != [] {
      var n := |plan| - 1;
      PlanInputsDistinct(plan[..n], name, t);
      var before := PlanInputs(plan[..n], name, t);
      forall x | x in before ensures x.id != plan[n].input.id && exists i | 0 <= i < |plan| :: plan[i].input == x {
        var i :| 0 <= i < n && plan[..n][i].input == x;
        assert plan[i].input == x;
      }
      assert forall i | 0 <= i < |before| :: before[i] in before;
    }
  }

  lemma {:induction false} ClassDistinct<K>(inputs: seq<InputI>, key: InputI -> K, k: K)
    requires DistinctIds(inputs)
    ensures DistinctIds(Class(inputs, key, k))
  {
    if inputs != [] {
      var n := |inputs| - 1;
      ClassDistinct(inputs[..n], key, k);
      var before := Class(inputs[..n], key, k);
      forall i | 0 <= i < |before| ensures before[i].id != inputs[n].id {
        assert before[i] in before;
        var j :| 0 <= j < n && inputs[j] == before[i];
      }
    }
  }

  lemma DashDistinct(c: string, a: string, b: string)
    ensures a != b ==> c + "-" + a != c + "-" + b
    ensures c + "-" + a != c
  {
    if c + "-" + a == c + "-" + b {
      var x, y := c + "-" + a, c + "-" + b;
      assert a == x[|c| + 1..] && b == y[|c| + 1..];
    }
    assert |c + "-" + a| > |c|;
  }

  /** The IDs of a component's units are pairwise distinct. */
  lemma UnitIdsDistinct(cx: Context, t: string, output: OutputI, c: Component)
    requires DistinctIds(InputsOf(output, t)) && c in TypeComponents(cx, t, output)
    ensures DistinctUnits(c.units)
  {
    hide Enabled, GroupOf, ManagersOf, ComponentErr, Isolated;
    var inputs := InputsOf(output, t);
    if Isolated(cx, t) {
      var i :| 0 <= i < |Enabled(inputs)| && c == IsolatedComponent(cx, t, output, Enabled(inputs)[i]);
      assert |c.id + "-unit"| > |c.id|;
    } else {
      var ms := Listed(ManagersOf(cx, t, output, inputs));
      var i :| 0 <= i < |ms| && c == GroupComponent(cx, t, output, ms[i]);
      GroupDistinct(cx, t, output, inputs, ms[i]);
      GroupIdsDistinct(cx, t, output, GroupOf(cx, t, output, inputs, ms[i]), c.id);
    }
  }

  lemma GroupDistinct(cx: Context, t: string, output: OutputI, inputs: seq<InputI>, manager: string)
    requires DistinctIds(inputs)
    ensures DistinctIds(GroupOf(cx, t, output, inputs, manager))
  {
    ClassDistinct(inputs, (i: InputI) => i.enabled, true);
    ClassDistinct(Enabled(inputs), (i: InputI) => Manager(cx, t, output, i), manager);
  }

  lemma GroupIdsDistinct(cx: Context, t: string, output: OutputI, group: seq<InputI>, id: string)
    requires !Isolated(cx, t) && DistinctIds(group) && id == ComponentId(cx, t, output, "")
    ensures DistinctUnits(Units(cx, t, output, group) + [OutputUnitOf(cx, output, id)])
  {
    hide Isolated, ComponentId;
    var us := Units(cx, t, output, group) + [OutputUnitOf(cx, output, id)];
    forall i, j | 0 <= i < j < |us| ensures us[i].id != us[j].id {
      ComponentIdShared(cx, t, output, group[i].id, "");
      DashDistinct(id, group[i].id, if j < |group| then group[j].id else "");
      if j < |group| { ComponentIdShared(cx, t, output, group[j].id, ""); }
    }
  }

  /** From a policy whose input IDs are distinct, every generated component has distinct unit IDs. */
  lemma ModelUnitIdsDistinct(cx: Context, outputs: map<string, OutputI>, plan: seq<Parsed>, names: seq<string>,
                             types: map<string, seq<string>>, c: Component)
    requires Consistent(outputs, plan) && DistinctPlan(plan) && c in ModelComponents(cx, outputs, names, types)
    ensures DistinctUnits(c.units)
  {
    hide ModelComponents, TypeComponents, PlanInputs;
    var name, t := ModelComponentsFrom(cx, outputs, names, types, c);
    PlanInputsDistinct(plan, name, t);
    assert InputsOf(outputs[name], t) == PlanInputs(plan, name, t);
    UnitIdsDistinct(cx, t, outputs[name], c);
  }

  // ---------- GetBeatInputIDForUnit ----------

  function FindUnit(us: seq<Unit>, id: string): (r: Option<Unit>)
    ensures r.Some? <==> exists i | 0 <= i < |us| :: us[i].id == id
    ensures r.Some? ==> r.value in us && r.value.id == id
  {
    if us == [] then None
    else if us[0].id == id then Some(us[0])
    else
      var r := FindUnit(us[1..], id);
      assert (exists i | 0 <= i < |us| :: us[i].id == id) ==> exists i | 0 <= i < |us| - 1 :: us[1..][i].id == id by {
        if i :| 0 <= i < |us| && us[i].id == id { assert us[1..][i - 1].id == id; }
      }
      r
  }

  function CutPrefix(s: string, prefix: string): Option<string> {
    if prefix <= s then Some(s[|prefix|..]) else None
  }

  function GetBeatInputIDForUnit(c: Component, unitId: string): string {
    if BeatName(c.spec) == "" then ""
    else
      var u := FindUnit(c.units, unitId);
      if u.None? || u.value.kind == OutputUnit then ""
      else
        match CutPrefix(unitId, c.id + "-")
        case None => ""
        case Some(id) => id
  }

  /** For a component of a beat whose units are not isolated, the beat's input ID of a unit is the
      ID of the policy's input. */
  lemma BeatInputIdRoundTrip(cx: Context, t: string, output: OutputI, manager: string, input: InputI)
    requires !Isolated(cx, t) && BeatName(SpecFor(cx, t)) != ""
    requires input in GroupOf(cx, t, output, InputsOf(output, t), manager)
    ensures GetBeatInputIDForUnit(GroupComponent(cx, t, output, manager), InputUnitOf(cx, t, output, input).id)
            == input.id
  {
    hide Isolated, ComponentId, GroupOf, BeatName, ComponentErr;
    var c := GroupComponent(cx, t, output, manager);
    var group := GroupOf(cx, t, output, InputsOf(output, t), manager);
    var i :| 0 <= i < |group| && group[i] == input;
    ComponentIdShared(cx, t, output, input.id, "");
    var id := c.id + "-" + input.id;
    assert InputUnitOf(cx, t, output, input).id == id;
    assert c.units[i].id == id;
    DashDistinct(c.id, input.id, "");
    var u := FindUnit(c.units, id).value;
    UnitKinds(cx, t, output, group, c.id, u);
    assert c.id + "-" <= id && id[|c.id + "-"|..] == input.id;
  }

  lemma UnitKinds(cx: Context, t: string, output: OutputI, group: seq<InputI>, id: string, u: Unit)
    requires u in Units(cx, t, output, group) + [OutputUnitOf(cx, output, id)] && u.id != id
    ensures u.kind == InputUnit
  {}

  /** Output units, unknown units and components that are no beats have no beat input. */
  lemma NoBeatInput(cx: Context, t: string, output: OutputI, manager: string, unitId: string)
    requires !Isolated(cx, t)
    requires BeatName(SpecFor(cx, t)) == "" || unitId == ComponentId(cx, t, output, "")
             || forall u | u in GroupComponent(cx, t, output, manager).units :: u.id != unitId
    ensures GetBeatInputIDForUnit(GroupComponent(cx, t, output, manager), unitId) == ""
  {
    hide Isolated, ComponentId, GroupOf, BeatName, ComponentErr;
    var c := GroupComponent(cx, t, output, manager);
    var found := FindUnit(c.units, unitId);
    if found.Some? && unitId == c.id {
      var group := GroupOf(cx, t, output, InputsOf(output, t), manager);
      var u := found.value;
      if u in Units(cx, t, output, group) {
        var i :| 0 <= i < |group| && u == InputUnitOf(cx, t, output, group[i]);
        ComponentIdShared(cx, t, output, group[i].id, "");
        DashDistinct(c.id, group[i].id, "");
        assert false;
      }
    }
  }
}
