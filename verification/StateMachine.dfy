/** Driving an agent through a list of states: callbacks, configurations and the end. */
module StateMachine {
  import opened Values
  import opened Listing
  import opened TestMachine

  /** What a run does: callbacks of state i and the sending of its configuration. */
  datatype Event = BeforeRan(i: nat) | Configured(i: nat) | AfterRan(i: nat)

  // ---------- Validation ----------

  predicate ValidUnits(units: map<UnitKey, UnitWant>) {
    forall k | k in units :: units[k].reached.Some? || units[k].state.Some?
  }

  predicate ValidComponent(c: ComponentWant) {
    && (c.reached.Some? || c.state.Some? || c.units.Some? || c.strictUnits.Some?)
    && if c.strictUnits.Some? then ValidUnits(c.strictUnits.value) else c.units.Some? ==> ValidUnits(c.units.value)
  }

  predicate ValidComponents(components: map<string, ComponentWant>) {
    forall k | k in components :: ValidComponent(components[k])
  }

  predicate ValidState(s: State) {
    && (s.reached.Some? || s.agentState.Some? || s.fleetState.Some? || s.components.Some? || s.strictComponents.Some?)
    && if s.strictComponents.Some? then ValidComponents(s.strictComponents.value)
       else s.components.Some? ==> ValidComponents(s.components.value)
  }

  /** newStateMachine: accepted are non-empty lists of valid states that configure something. */
  method NewStateMachine(states: seq<State>) returns (m: Option<Machine>)
    ensures m.Some? <==>
              && (forall i | 0 <= i < |states| :: ValidState(states[i]))
              && exists i | 0 <= i < |states| :: states[i].configure != ""
    ensures m.Some? ==> fresh(m.value) && m.value.Valid() && m.value.states == states && m.value.current == -1
  {
    if |states| == 0 { return None; }
    var cfg := false;
    for i := 0 to |states|
      invariant forall j | 0 <= j < i :: ValidState(states[j])
      invariant cfg <==> exists j | 0 <= j < i :: states[j].configure != ""
    {
      if !ValidState(states[i]) { return None; }
      if states[i].configure != "" { cfg := true; }
    }
    if !cfg { return None; }
    var made := new Machine(states);
    m := Some(made);
  }

  // ---------- What a whole run does ----------

  function Opening(states: seq<State>, i: nat): seq<Event>
    requires i < |states|
  {
    (if states[i].before then [BeforeRan(i)] else []) + (if states[i].configure != "" then [Configured(i)] else [])
  }

  function Closing(states: seq<State>, i: nat): seq<Event>
    requires i < |states|
  {
    if states[i].after then [AfterRan(i)] else []
  }

  /** The first n states, each opened and closed in turn. */
  function Script(states: seq<State>, n: nat): seq<Event>
    requires n <= |states|
  {
    if n == 0 then [] else Script(states, n - 1) + Opening(states, n - 1) + Closing(states, n - 1)
  }

  lemma {:induction false} ScriptPrefix(states: seq<State>, m: nat, n: nat)
    requires m <= n <= |states|
    ensures Script(states, m) <= Script(states, n)
  {
    hide Opening, Closing;
    if m < n { ScriptPrefix(states, m, n - 1); }
  }

  /** The state i has been opened: an initial part of the whole. */
  lemma OpenPrefix(states: seq<State>, i: nat, es: seq<Event>)
    requires i < |states| && es <= Opening(states, i) + Closing(states, i)
    ensures Script(states, i) + es <= Script(states, |states|)
  {
    hide Opening, Closing;
    ScriptPrefix(states, i + 1, |states|);
    assert Script(states, i + 1) == Script(states, i) + (Opening(states, i) + Closing(states, i));
  }

  /** Every callback and configuration occurs once. */
  lemma {:induction false} ScriptOnce(states: seq<State>, n: nat)
    requires n <= |states|
    ensures NoRepeats(Script(states, n)) && forall k | 0 <= k < |Script(states, n)| :: Script(states, n)[k].i < n
  {
    hide Opening, Closing;
    if n > 0 {
      ScriptOnce(states, n - 1);
      OwnEvents(states, n - 1);
      var before, own := Script(states, n - 1), Opening(states, n - 1) + Closing(states, n - 1);
      assert Script(states, n) == before + own;
      Appended(before, own, n - 1);
    }
  }

  lemma Appended(before: seq<Event>, own: seq<Event>, n: nat)
    requires NoRepeats(before) && NoRepeats(own)
    requires (forall k | 0 <= k < |before| :: before[k].i < n) && forall k | 0 <= k < |own| :: own[k].i == n
    ensures NoRepeats(before + own) && forall k | 0 <= k < |before + own| :: (before + own)[k].i <= n
  {}

  lemma OwnEvents(states: seq<State>, i: nat)
    requires i < |states|
    ensures var own := Opening(states, i) + Closing(states, i);
            NoRepeats(own) && forall k | 0 <= k < |own| :: own[k].i == i
  {}

  /** An initial part of. */
  ghost predicate Starts(a: seq<Event>, b: seq<Event>) { a <= b }

  lemma StartsOn(a: seq<Event>, b: seq<Event>, c: seq<Event>)
    requires Starts(a, b) && Starts(b, c)
    ensures Starts(a, c)
  {}

  /** What the trace is while the machine is at a state. */
  function Expected(states: seq<State>, current: int): seq<Event>
    requires -1 <= current <= |states|
  {
    if current == -1 then [] else if current == |states| then Script(states, current)
        else Script(states, current) + Opening(states, current)
  }

  // ---------- Where one step stops ----------

  /** A step from one state stops at another: those passed are reached, none passed over has a
      configuration, and the last is the end, has a configuration to send or is not yet reached. */
  ghost predicate Stops(states: seq<State>, from: int, agent: Option<AgentState>, at: int) {
    && -1 <= from <= at <= |states| && 0 <= at
    && (forall i | 0 <= i && from <= i < at :: Reached(states[i], agent))
    && (forall i | from < i < at :: states[i].configure == "")
    && (at == |states| || (from < at && states[at].configure != "") || !Reached(states[at], agent))
  }

  /** That says exactly where. */
  lemma StopUnique(states: seq<State>, from: int, agent: Option<AgentState>, a: int, b: int)
    requires Stops(states, from, agent, a) && Stops(states, from, agent, b)
    ensures a == b
  {
    hide Reached;
  }

  class Machine {
    const states: seq<State>
    var current: int
    /** What has been done so far. */
    var trace: seq<Event>

    ghost predicate Valid()
      reads this
    {
      -1 <= current <= |states| && trace == Expected(states, current)
    }

    constructor (states: seq<State>)
      ensures this.states == states && Valid() && current == -1
    {
      this.states, current, trace := states, -1, [];
    }

    /** The After callback of the current state, if there is one, and the move to the next. */
    method Leave(fails: Event -> bool) returns (err: bool)
      requires Valid() && current < |states|
      modifies this
      ensures Starts(old(trace), trace) && Starts(trace, Script(states, |states|))
      ensures err ==> current == old(current) && trace != [] && fails(trace[|trace| - 1])
      ensures !err ==> current == old(current) + 1 && trace == Script(states, current)
    {
      hide Opening, Closing, Script;
      if current >= 0 {
        Closed(states, current);
        if states[current].after {
          trace := trace + [AfterRan(current)];
          if fails(AfterRan(current)) { return true; }
        }
      } else {
        NothingYet(states);
      }
      current := current + 1;
      err := false;
    }

    /** The Before callback of the state just entered, and its configuration, if there is one. */
    method Enter(fails: Event -> bool) returns (err: bool)
      requires 0 <= current < |states| && trace == Script(states, current)
      modifies this`trace
      ensures Starts(old(trace), trace) && Starts(trace, Script(states, |states|))
      ensures err ==> trace != [] && fails(trace[|trace| - 1])
      ensures !err ==> Valid()
    {
      hide Opening, Script;
      Opened(states, current);
      if states[current].before {
        trace := trace + [BeforeRan(current)];
        if fails(BeforeRan(current)) { return true; }
      }
      if states[current].configure != "" {
        trace := trace + [Configured(current)];
      }
      err := false;
    }

    /** next: fails says which callbacks return an error. */
    method Next(agent: Option<AgentState>, fails: Event -> bool) returns (config: string, cont: bool, err: bool)
      requires Valid()
      modifies this
      ensures old(current) <= current && Starts(old(trace), trace) && Starts(trace, Script(states, |states|))
      ensures err ==> !cont && trace != [] && fails(trace[|trace| - 1])
      ensures !err ==> Valid() && Stops(states, old(current), agent, current) && (cont <==> current < |states|)
      ensures !err && cont ==> config == if current > old(current) then states[current].configure else ""
      decreases |states| - current
    {
      hide Stops, Reached, Opening, Closing, Script, Expected, Starts;
      AtPrefix(states, current);
      ghost var from := current;
      StopsAt(states, from, agent);
      if current >= |states| { return "", false, false; }
      var reached := true;
      if current >= 0 {
        reached := StateReached(states[current], agent);
      }
      if !reached { return "", true, false; }
      err := Leave(fails);
      if err { return "", false, true; }
      if current >= |states| {
        AtEnd(states);
        return "", false, false;
      }
      ghost var left := trace;
      err := Enter(fails);
      StartsOn(old(trace), left, trace);
      if err { return "", false, true; }
      if states[current].configure != "" { return states[current].configure, true, false; }
      ghost var entered := trace;
      config, cont, err := this.Next(agent, fails);
      StartsOn(old(trace), entered, trace);
      if !err { StopsOn(states, from, agent, current); }
    }
  }

  /** Stopping at once, or at the next state. */
  lemma StopsAt(states: seq<State>, from: int, agent: Option<AgentState>)
    requires -1 <= from <= |states|
    ensures from == |states| ==> Stops(states, from, agent, from)
    ensures 0 <= from < |states| && !Reached(states[from], agent) ==> Stops(states, from, agent, from)
    ensures from < |states| && (from >= 0 ==> Reached(states[from], agent))
            && (from + 1 < |states| ==> states[from + 1].configure != "")
            ==> Stops(states, from, agent, from + 1)
  {
    hide Reached;
  }

  lemma StopsOn(states: seq<State>, from: int, agent: Option<AgentState>, at: int)
    requires -1 <= from < from + 1 < |states| && (from >= 0 ==> Reached(states[from], agent))
             && states[from + 1].configure == ""
    requires Stops(states, from + 1, agent, at)
    ensures Stops(states, from, agent, at)
  {
    hide Reached;
  }

  lemma AtEnd(states: seq<State>)
    ensures Expected(states, |states|) == Script(states, |states|)
  {}

  lemma NothingYet(states: seq<State>)
    ensures Script(states, 0) == []
  {}

  lemma AtPrefix(states: seq<State>, current: int)
    requires -1 <= current <= |states|
    ensures Starts(Expected(states, current), Expected(states, current))
            && Starts(Expected(states, current), Script(states, |states|))
  {
    hide Closing, Opening;
    if 0 <= current < |states| { OpenPrefix(states, current, Opening(states, current)); }
  }

  /** Closing the state i completes its part of the script. */
  lemma Closed(states: seq<State>, i: nat)
    requires i < |states|
    ensures Script(states, i + 1)
            == Script(states, i) + Opening(states, i) + (if states[i].after then [AfterRan(i)] else [])
    ensures Script(states, i + 1) <= Script(states, |states|)
  {
    hide Opening;
    ScriptPrefix(states, i + 1, |states|);
  }

  lemma Opened(states: seq<State>, i: nat)
    requires i < |states|
    ensures Script(states, i) + Opening(states, i)
            == Script(states, i) + (if states[i].before then [BeforeRan(i)] else [])
                + (if states[i].configure != "" then [Configured(i)] else [])
    ensures states[i].before ==> Script(states, i) + [BeforeRan(i)] <= Script(states, |states|)
    ensures Script(states, i) + Opening(states, i) <= Script(states, |states|)
  {
    hide Script;
    OpenPrefix(states, i, Opening(states, i));
    if states[i].before { OpenPrefix(states, i, [BeforeRan(i)]); }
  }

  // ---------- Whole runs ----------

  /** What is reported to the machine: an agent state, and which callbacks fail meanwhile. */
  datatype Report = Report(agent: Option<AgentState>, fails: Event -> bool)

  /** The state i was reached at report when[i], in order. */
  ghost predicate ReachedInTurn(states: seq<State>, reports: seq<Report>, when: seq<nat>) {
    && |when| <= |states|
    && (forall i | 0 <= i < |when| :: when[i] < |reports| && Reached(states[i], reports[when[i]].agent))
    && forall i, j | 0 <= i < j < |when| :: when[i] <= when[j]
  }

  lemma PassedInTurn(states: seq<State>, reports: seq<Report>, when: seq<nat>, from: int, k: nat, at: int)
    requires ReachedInTurn(states, reports, when) && k < |reports| && Stops(states, from, reports[k].agent, at)
    requires |when| == (if from < 0 then 0 else from) && forall i | 0 <= i < |when| :: when[i] <= k
    ensures var when' := when + seq(at - |when|, _ => k);
            ReachedInTurn(states, reports, when') && |when'| == at && forall i | 0 <= i < |when'| :: when'[i] <= k
  {
    hide Reached;
  }

  /** A run over all reports, up to the first error. The trace is an initial part of the script, so
      nothing happens twice; the current state never goes back; and the machine asks to continue
      exactly while states remain, each state passed having been reached. */
  method Drive(m: Machine, reports: seq<Report>)
    returns (currents: seq<int>, conts: seq<bool>, failed: bool, ghost when: seq<nat>)
    requires m.Valid() && m.current == -1
    modifies m
    ensures Starts(m.trace, Script(m.states, |m.states|)) && NoRepeats(m.trace)
    ensures |currents| == |conts| <= |reports| && (!failed ==> |conts| == |reports|)
    ensures forall i, j | 0 <= i < j < |currents| :: currents[i] <= currents[j]
    ensures forall i | 0 <= i < |conts| :: conts[i] <==> currents[i] < |m.states|
    ensures !failed && reports != [] ==> m.Valid() && m.current == currents[|currents| - 1]
    ensures ReachedInTurn(m.states, reports, when) && |when| == if currents == [] then 0 else currents[|currents| - 1]
  {
    hide Reached, Script, Stops, ReachedInTurn, Expected, Starts;
    currents, conts, failed, when := [], [], false, [];
    NothingReached(m.states, reports);
    for k := 0 to |reports|
      invariant m.Valid() && |currents| == |conts| == k && !failed
      invariant forall i, j | 0 <= i < j < k :: currents[i] <= currents[j]
      invariant forall i | 0 <= i < k :: conts[i] <==> currents[i] < |m.states|
      invariant if k == 0 then m.current == -1 else m.current == currents[k - 1] >= 0
      invariant ReachedInTurn(m.states, reports, when) && |when| == if k == 0 then 0 else currents[k - 1]
      invariant forall i | 0 <= i < |when| :: when[i] < k
    {
      ghost var from := m.current;
      var config, cont;
      config, cont, failed := m.Next(reports[k].agent, reports[k].fails);
      if failed {
        Once(m.states, m.trace);
        return;
      }
      PassedInTurn(m.states, reports, when, from, k, m.current);
      StopIsAfter(m.states, from, reports[k].agent, m.current);
      when := when + seq(m.current - |when|, _ => k);
      currents, conts := currents + [m.current], conts + [cont];
    }
    AtPrefix(m.states, m.current);
    Once(m.states, m.trace);
  }

  lemma NothingReached(states: seq<State>, reports: seq<Report>)
    ensures ReachedInTurn(states, reports, [])
  {}

  lemma StopIsAfter(states: seq<State>, from: int, agent: Option<AgentState>, at: int)
    requires Stops(states, from, agent, at)
    ensures 0 <= at && from <= at <= |states|
  {}

  lemma Once(states: seq<State>, trace: seq<Event>)
    requires Starts(trace, Script(states, |states|))
    ensures NoRepeats(trace)
  {
    hide Script;
    ScriptOnce(states, |states|);
    var all := Script(states, |states|);
    assert forall i | 0 <= i < |trace| :: trace[i] == all[i];
  }
}
