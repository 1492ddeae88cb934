/** The state machine that drives an agent through expected states, and the matching of states. */
module TestMachine {
  import opened Values
  import opened Listing

  // ---------- Matching expected against observed ----------

  /** Every observed item that is expected is as expected, every expected one is observed, and in
      strict mode there are as many of both and nothing else is observed. */
  ghost predicate Matches<K, W(!new), O(!new)>(
    wanted: map<K, W>, observed: seq<O>, key: O -> K, ok: (W, O) -> bool, strict: bool) {
    && (strict ==> |wanted| == |observed|)
    && (forall i | 0 <= i < |observed| ::
          if key(observed[i]) in wanted then ok(wanted[key(observed[i])], observed[i]) else !strict)
    && (forall k | k in wanted :: exists i | 0 <= i < |observed| :: key(observed[i]) == k)
  }

  function KeysOf<K, O>(observed: seq<O>, key: O -> K): (ks: seq<K>)
    ensures |ks| == |observed| && forall i | 0 <= i < |ks| :: ks[i] == key(observed[i])
  {
    seq(|observed|, i requires 0 <= i < |observed| => key(observed[i]))
  }

  /** A sequence has at most as many different elements as its length, and as many only without repeats. */
  lemma {:induction false} Pigeonhole<K>(s: seq<K>)
    ensures |set k | k in s| <= |s|
    ensures |set k | k in s| == |s| <==> NoRepeats(s)
  {
    if s != [] {
      var n := |s| - 1;
      var init, last := s[..n], s[n];
      Pigeonhole(init);
      var few := set k | k in init;
      assert s == init + [last];
      assert (set k | k in s) == few + {last};
      if last in init {
        assert few + {last} == few;
      }
      if NoRepeats(init) && last !in init {
        assert NoRepeats(s);
      }
      if NoRepeats(s) {
        assert forall i | 0 <= i < n :: init[i] == s[i] != last;
      }
    }
  }

  /** Strict matching is exact: pairwise distinct keys, precisely the expected ones, each as expected. It
      implies the loose one. */
  lemma StrictIsExact<K, W(!new), O(!new)>(wanted: map<K, W>, observed: seq<O>, key: O -> K, ok: (W, O) -> bool)
    ensures Matches(wanted, observed, key, ok, true) <==>
            && NoRepeats(KeysOf(observed, key)) && (set k | k in KeysOf(observed, key)) == wanted.Keys
            && forall i | 0 <= i < |observed| :: key(observed[i]) in wanted && ok(wanted[key(observed[i])], observed[i])
    ensures Matches(wanted, observed, key, ok, true) ==> Matches(wanted, observed, key, ok, false)
  {
    var ks := KeysOf(observed, key);
    Pigeonhole(ks);
    var have := set k | k in ks;
    assert |wanted| == |wanted.Keys|;
    if Matches(wanted, observed, key, ok, true) {
      forall k | k in wanted ensures k in have {
        var i :| 0 <= i < |observed| && key(observed[i]) == k;
        assert ks[i] == k;
      }
      forall k | k in have ensures k in wanted {
        var i :| 0 <= i < |ks| && ks[i] == k;
      }
      assert have == wanted.Keys;
    }
    if NoRepeats(ks) && have == wanted.Keys {
      forall k | k in wanted ensures exists i | 0 <= i < |observed| :: key(observed[i]) == k {
        assert k in have;
        var i :| 0 <= i < |ks| && ks[i] == k;
        assert key(observed[i]) == k;
      }
    }
  }

  // ---------- Units and components ----------

  datatype UnitKey = UnitKey(unitType: int, id: string)

  datatype UnitObs = UnitObs(unitType: int, id: string, state: int)

  /** What is wanted of a unit; a Reached function, when there is one, decides alone. */
  datatype UnitWant = UnitWant(state: Option<int>, reached: Option<UnitObs -> bool>)

  datatype ComponentObs = ComponentObs(id: string, state: int, units: seq<UnitObs>)

  datatype ComponentWant = ComponentWant(
    state: Option<int>, units: Option<map<UnitKey, UnitWant>>, strictUnits: Option<map<UnitKey, UnitWant>>,
    reached: Option<ComponentObs -> bool>)

  datatype AgentState = AgentState(state: int, fleetState: int, components: seq<ComponentObs>)

  /** A state of the machine; before and after say whether these callbacks are set. */
  datatype State = State(
    configure: string, agentState: Option<int>, fleetState: Option<int>,
    components: Option<map<string, ComponentWant>>, strictComponents: Option<map<string, ComponentWant>>,
    reached: Option<AgentState -> bool>, before: bool, after: bool)

  function KeyOf(u: UnitObs): UnitKey { UnitKey(u.unitType, u.id) }

  function IdOf(c: ComponentObs): string { c.id }

  predicate IsState(want: Option<int>, have: int) { want.Some? ==> want.value == have }

  predicate UnitReached(w: UnitWant, u: UnitObs) {
    if w.reached.Some? then w.reached.value(u) else IsState(w.state, u.state)
  }

  ghost predicate ComponentReached(w: ComponentWant, c: ComponentObs) {
    if w.reached.Some? then w.reached.value(c)
    else
      && IsState(w.state, c.state)
      && if w.strictUnits.Some? then Matches(w.strictUnits.value, c.units, KeyOf, UnitReached, true)
         else w.units.Some? ==> Matches(w.units.value, c.units, KeyOf, UnitReached, false)
  }

  ghost predicate Reached(s: State, agent: Option<AgentState>) {
    agent.Some?
    && if s.reached.Some? then s.reached.value(agent.value)
       else
         && IsState(s.agentState, agent.value.state) && IsState(s.fleetState, agent.value.fleetState)
         && if s.strictComponents.Some?
             then Matches(s.strictComponents.value, agent.value.components, IdOf, (w, c) => ComponentReached(w, c),
                 true)
            else s.components.Some? ==>
                  Matches(s.components.value, agent.value.components, IdOf, (w, c) => ComponentReached(w, c), false)
  }

  /** stateComponentUnitsReached. */
  method StateComponentUnitsReached(units: map<UnitKey, UnitWant>, observed: seq<UnitObs>, strict: bool)
    returns (r: bool)
    ensures r == Matches(units, observed, KeyOf, UnitReached, strict)
  {
    hide UnitReached;
    if strict && |units| != |observed| { return false; }
    var found: set<UnitKey> := {};
    for i := 0 to |observed|
      invariant forall k :: k in found <==> k in units && exists j | 0 <= j < i :: KeyOf(observed[j]) == k
      invariant forall j | 0 <= j < i ::
                  if KeyOf(observed[j]) in units then UnitReached(units[KeyOf(observed[j])], observed[j]) else !strict
    {
      var key := UnitKey(observed[i].unitType, observed[i].id);
      assert key == KeyOf(observed[i]);
      if key !in units {
        if strict { return false; }
      } else {
        found := found + {key};
        if !UnitReached(units[key], observed[i]) { return false; }
      }
    }
    r := AllFound(units.Keys, found);
  }

  /** The closing loop: a key that was not found is a failure. */
  method AllFound<K(==)>(wanted: set<K>, found: set<K>) returns (r: bool)
    ensures r <==> forall k | k in wanted :: k in found
  {
    var todo := wanted;
    while todo != {}
      invariant todo <= wanted && forall k | k in wanted && k !in todo :: k in found
      decreases |todo|
    {
      var k :| k in todo;
      if k !in found { return false; }
      todo := todo - {k};
    }
    r := true;
  }

  method StateComponentReached(w: ComponentWant, c: ComponentObs) returns (r: bool)
    ensures r == ComponentReached(w, c)
  {
    hide Matches;
    if w.reached.Some? { return w.reached.value(c); }
    if w.state.Some? && w.state.value != c.state { return false; }
    if w.strictUnits.Some? {
      r := StateComponentUnitsReached(w.strictUnits.value, c.units, true);
    } else if w.units.Some? {
      r := StateComponentUnitsReached(w.units.value, c.units, false);
    } else {
      r := true;
    }
  }

  /** stateComponentsReached. */
  method StateComponentsReached(components: map<string, ComponentWant>, observed: seq<ComponentObs>, strict: bool)
    returns (r: bool)
    ensures r == Matches(components, observed, IdOf, (w, c) => ComponentReached(w, c), strict)
  {
    hide ComponentReached;
    if strict && |components| != |observed| { return false; }
    var found: set<string> := {};
    for i := 0 to |observed|
      invariant forall k :: k in found <==> k in components && exists j | 0 <= j < i :: IdOf(observed[j]) == k
      invariant forall j | 0 <= j < i ::
                  if IdOf(observed[j]) in components then ComponentReached(components[IdOf(observed[j])], observed[j])
                  else !strict
    {
      var id := observed[i].id;
      assert id == IdOf(observed[i]);
      if id !in components {
        if strict { return false; }
      } else {
        found := found + {id};
        var reached := StateComponentReached(components[id], observed[i]);
        if !reached { return false; }
      }
    }
    r := AllFound(components.Keys, found);
  }

  /** stateReached; before the first report there is no agent state. */
  method StateReached(s: State, agent: Option<AgentState>) returns (r: bool)
    ensures r == Reached(s, agent)
  {
    hide Matches, ComponentReached;
    if agent.None? { return false; }
    if s.reached.Some? { return s.reached.value(agent.value); }
    if s.agentState.Some? && s.agentState.value != agent.value.state { return false; }
    if s.fleetState.Some? && s.fleetState.value != agent.value.fleetState { return false; }
    if s.strictComponents.Some? {
      r := StateComponentsReached(s.strictComponents.value, agent.value.components, true);
    } else if s.components.Some? {
      r := StateComponentsReached(s.components.value, agent.value.components, false);
    } else {
      r := true;
    }
  }
}
