/** The Fleet check-in loop: ticks, retries with a backoff, and escalation after repeated 401s. */
module CheckinLoop {
  /** What execute returned: no error and a next interval, a 401, or another error. */
  datatype Attempt = Success(next: int) | Unauthorized | Transient

  /** One pass of the retry loop: the attempt, and what the backoff's Wait returns should it be called. */
  datatype Choice = Choice(attempt: Attempt, waited: bool)

  /** What the loop does, in order. Backoff(n, ok) is the n-th wait since the backoff was reset. */
  datatype Event = Ticked | Tried(attempt: Attempt) | Backoff(n: nat, ok: bool) | SetDuration(d: int)

  const MAX_UNAUTH_COUNTER := 6
  const HOUR := 3600 * 1000000000

  // ---------- What a run is meant to be ----------

  /** How a tick ends: a success, a 401, the context cancelled between attempts, or during a wait. */
  datatype End = Succeeded(next: int) | Rejected | Cancelled | Stopped

  /** A tick: some transient failures, each followed by a wait, then its end. */
  datatype Tick = Tick(failures: nat, end: End)

  /** The ticks rejected with a 401 since the last success. */
  function RejectedSince(ticks: seq<Tick>): nat {
    if ticks == [] then 0
    else
      var before := RejectedSince(ticks[..|ticks| - 1]);
      match ticks[|ticks| - 1].end
      case Succeeded(_) => 0
      case Rejected => before + 1
      case _ => before
  }

  /** The last tick is a seventh rejection. */
  predicate Escalates(ticks: seq<Tick>) {
    ticks != [] && ticks[|ticks| - 1].end.Rejected? && RejectedSince(ticks) % (MAX_UNAUTH_COUNTER + 1) == 0
  }

  /** The escalations since the last success. */
  function EscalationsSince(ticks: seq<Tick>): nat {
    if ticks == [] then 0
    else
      var before := EscalationsSince(ticks[..|ticks| - 1]);
      if ticks[|ticks| - 1].end.Succeeded? then 0 else if Escalates(ticks) then before + 1 else before
  }

  function Retries(n: nat): seq<Event> {
    if n == 0 then [] else Retries(n - 1) + [Tried(Transient), Backoff(n - 1, true)]
  }

  /** The events that end the last tick. */
  function EndEvents(ticks: seq<Tick>): seq<Event>
    requires ticks != []
  {
    var last := ticks[|ticks| - 1];
    match last.end
    case Succeeded(next) => [Tried(Success(next))] + (if next > 0 then [SetDuration(next)] else [])
    case Rejected => [Tried(Unauthorized)] + (if Escalates(ticks) then [SetDuration(HOUR)] else [])
    case Cancelled => []
    case Stopped => [Tried(Transient), Backoff(last.failures, false)]
  }

  /** The events of a run with these ticks. */
  function Events(ticks: seq<Tick>): seq<Event> {
    if ticks == [] then []
    else Events(ticks[..|ticks| - 1]) + ([Ticked] + Retries(ticks[|ticks| - 1].failures)) + EndEvents(ticks)
  }

  /** Only the last tick may have been stopped in a wait. */
  predicate WellEnded(ticks: seq<Tick>) {
    forall i | 0 <= i < |ticks| - 1 :: !ticks[i].end.Stopped?
  }

  // ---------- The loop ----------

  /** The counter is what the 401s since the last success leave over the escalations. */
  ghost predicate Counted(ticks: seq<Tick>, counter: nat) {
    counter <= MAX_UNAUTH_COUNTER
        && RejectedSince(ticks) == (MAX_UNAUTH_COUNTER + 1) * EscalationsSince(ticks) + counter
  }

  function NextCounter(counter: nat, end: End): nat {
    match end
    case Succeeded(_) => 0
    case Rejected => if counter + 1 > MAX_UNAUTH_COUNTER then 0 else counter + 1
    case _ => counter
  }

  /** The counter passes its maximum exactly on a seventh rejection. */
  lemma CounterStep(ticks: seq<Tick>, counter: nat, tick: Tick)
    requires Counted(ticks, counter)
    ensures Counted(ticks + [tick], NextCounter(counter, tick.end))
    ensures Escalates(ticks + [tick]) <==> tick.end.Rejected? && counter + 1 > MAX_UNAUTH_COUNTER
  {
    assert (ticks + [tick])[..|ticks|] == ticks;
  }

  /** A tick accounts for the passes made in it: the failures, then the pass that ended it, if any did. */
  predicate Explains(passes: seq<Choice>, tick: Tick) {
    && tick.failures <= |passes|
    && (forall k | 0 <= k < tick.failures :: passes[k] == Choice(Transient, true))
    && match tick.end
       case Cancelled => tick.failures == |passes|
       case Succeeded(next) => tick.failures < |passes| && passes[tick.failures].attempt == Success(next)
       case Rejected => tick.failures < |passes| && passes[tick.failures].attempt == Unauthorized
       case Stopped => tick.failures < |passes| && passes[tick.failures] == Choice(Transient, false)
  }

  /** One tick, with the passes of the retry loop made while the context is alive. */
  method OnTick(passes: seq<Choice>, before: nat, ghost ticks: seq<Tick>)
    returns (trace: seq<Event>, counter: nat, stopped: bool, ghost tick: Tick)
    requires Counted(ticks, before)
    ensures Explains(passes, tick) && (stopped <==> tick.end.Stopped?)
    ensures stopped <==>
              exists k | 0 <= k < |passes| ::
                  passes[k] == Choice(Transient, false) && passes[..k] == seq(k, _ => Choice(Transient, true))
    ensures counter == NextCounter(before, tick.end)
    ensures trace == [Ticked] + Retries(tick.failures) + EndEvents(ticks + [tick])
  {
    hide Counted;
    trace, counter, stopped := [Ticked], before, false;
    var waits := 0; // bo.Reset()
    while waits < |passes|
      invariant waits <= |passes| && counter == before && !stopped
      invariant forall k | 0 <= k < waits :: passes[k] == Choice(Transient, true)
      invariant trace == [Ticked] + Retries(waits)
    {
      var c := passes[waits];
      trace := trace + [Tried(c.attempt)];
      match c.attempt
      case Success(next) =>
        counter := 0;
        if next > 0 {
          trace := trace + [SetDuration(next)];
        }
        tick := Tick(waits, Succeeded(next));
        return;
      case Unauthorized =>
        tick := Tick(waits, Rejected);
        CounterStep(ticks, before, tick);
        counter := counter + 1;
        if counter > MAX_UNAUTH_COUNTER {
          trace := trace + [SetDuration(HOUR)];
          counter := 0;
        }
        return;
      case Transient =>
        trace := trace + [Backoff(waits, c.waited)];
        if !c.waited {
          stopped := true;
          tick := Tick(waits, Stopped);
          return;
        }
        waits := waits + 1;
    }
    tick := Tick(waits, Cancelled);
  }

  /** Run over the ticks the scheduler delivers before the context is cancelled. */
  method Run(script: seq<seq<Choice>>) returns (trace: seq<Event>, counter: nat, ghost ticks: seq<Tick>)
    ensures trace == Events(ticks) && |ticks| <= |script|
    ensures forall i | 0 <= i < |ticks| :: Explains(script[i], ticks[i])
    ensures WellEnded(ticks) && (|ticks| < |script| ==> ticks != [] && ticks[|ticks| - 1].end.Stopped?)
    ensures counter <= MAX_UNAUTH_COUNTER
    ensures RejectedSince(ticks) == (MAX_UNAUTH_COUNTER + 1) * EscalationsSince(ticks) + counter
  {
    hide EndEvents, Explains, Escalates;
    trace, counter, ticks := [], 0, [];
    for i := 0 to |script|
      invariant trace == Events(ticks) && |ticks| == i && Counted(ticks, counter)
      invariant forall k | 0 <= k < i :: !ticks[k].end.Stopped? && Explains(script[k], ticks[k])
    {
      var events, next, stopped, tick := OnTick(script[i], counter, ticks);
      CounterStep(ticks, counter, tick);
      SnocEvents(ticks, tick);
      trace, counter, ticks := trace + events, next, ticks + [tick];
      if stopped { return; }
    }
  }

  lemma SnocEvents(ticks: seq<Tick>, tick: Tick)
    ensures Events(ticks + [tick]) == Events(ticks) + ([Ticked] + Retries(tick.failures) + EndEvents(ticks + [tick]))
  {
    hide EndEvents, Retries;
    assert (ticks + [tick])[..|ticks|] == ticks;
  }

  // ---------- Escalation, read off a trace ----------

  /** The 401s since the last successful attempt. */
  function Unauths(trace: seq<Event>): nat {
    if trace == [] then 0
    else
      var before := Unauths(trace[..|trace| - 1]);
      match trace[|trace| - 1]
      case Tried(Success(_)) => 0
      case Tried(Unauthorized) => before + 1
      case _ => before
  }

  predicate Quiet(e: Event) { e.Tried? ==> e.attempt.Transient? }

  lemma {:induction false} UnauthsQuiet(trace: seq<Event>, more: seq<Event>)
    requires forall i | 0 <= i < |more| :: Quiet(more[i])
    ensures Unauths(trace + more) == Unauths(trace)
  {
    if more == [] {
      assert trace + more == trace;
    } else {
      var n := |more| - 1;
      assert (trace + more)[..|trace| + n] == trace + more[..n];
      UnauthsQuiet(trace, more[..n]);
    }
  }

  lemma {:induction false} RetriesQuiet(n: nat)
    ensures forall i | 0 <= i < |Retries(n)| :: Quiet(Retries(n)[i])
  {
    if n > 0 { RetriesQuiet(n - 1); }
  }

  /** The head of a tick: everything before the events that end it. */
  function Head(ticks: seq<Tick>): seq<Event>
    requires ticks != []
  {
    Events(ticks[..|ticks| - 1]) + ([Ticked] + Retries(ticks[|ticks| - 1].failures))
  }

  lemma HeadIs(ticks: seq<Tick>)
    requires ticks != []
    ensures Events(ticks) == Head(ticks) + EndEvents(ticks)
    ensures Unauths(Head(ticks)) == Unauths(Events(ticks[..|ticks| - 1]))
    ensures forall i | |Events(ticks[..|ticks| - 1])| <= i < |Head(ticks)| :: Quiet(Head(ticks)[i])
  {
    hide EndEvents, Retries, Unauths;
    var n := ticks[|ticks| - 1].failures;
    RetriesQuiet(n);
    UnauthsQuiet(Events(ticks[..|ticks| - 1]), [Ticked] + Retries(n));
  }

  /** Rejected ticks are the 401s of the trace. */
  lemma {:induction false} UnauthsAreRejections(ticks: seq<Tick>)
    ensures Unauths(Events(ticks)) == RejectedSince(ticks)
  {
    hide Escalates, Events, Head;
    if ticks != [] {
      UnauthsAreRejections(ticks[..|ticks| - 1]);
      HeadIs(ticks);
      var h, e := Head(ticks), EndEvents(ticks);
      match ticks[|ticks| - 1].end
      case Cancelled => UnauthsQuiet(h, e);
      case Stopped => UnauthsQuiet(h, e);
      case _ =>
        UnauthsQuiet(h + e[..1], e[1..]);
        assert (h + e[..1])[..|h|] == h;
        assert h + e == h + e[..1] + e[1..];
    } else {
      NoEvents();
    }
  }

  lemma NoEvents()
    ensures Events([]) == []
  {}

  /** In every trace, a 401 is followed by the one-hour duration exactly when it is a seventh one since
      the last success, whatever transient failures lie between. */
  lemma {:induction false} HourExactlyOnSevenths(ticks: seq<Tick>, i: nat)
    requires i < |Events(ticks)| && Events(ticks)[i] == Tried(Unauthorized)
    ensures (i + 1 < |Events(ticks)| && Events(ticks)[i + 1] == SetDuration(HOUR))
            <==> Unauths(Events(ticks)[..i + 1]) % (MAX_UNAUTH_COUNTER + 1) == 0
  {
    hide Events, Head, Escalates;
    if ticks == [] { NoEvents(); }
    HeadIs(ticks);
    var before := Events(ticks[..|ticks| - 1]);
    var h, e := Head(ticks), EndEvents(ticks);
    if i < |h| {
      HeadStarts(ticks);
      assert i < |before|;
      HourExactlyOnSevenths(ticks[..|ticks| - 1], i);
      assert Events(ticks)[..i + 1] == before[..i + 1];
    } else {
      assert ticks[|ticks| - 1].end.Rejected? && i == |h|;
      UnauthsAreRejections(ticks[..|ticks| - 1]);
      assert Events(ticks)[..i + 1][..i] == h;
      EscalatesIs(ticks);
    }
  }

  lemma HeadStarts(ticks: seq<Tick>)
    requires ticks != []
    ensures var before := Events(ticks[..|ticks| - 1]);
            before <= Head(ticks) && |before| < |Head(ticks)| && Head(ticks)[|before|] == Ticked
  {}

  lemma EscalatesIs(ticks: seq<Tick>)
    requires ticks != [] && ticks[|ticks| - 1].end.Rejected?
    ensures Escalates(ticks) <==> (RejectedSince(ticks[..|ticks| - 1]) + 1) % (MAX_UNAUTH_COUNTER + 1) == 0
  {}

  // ---------- Six 401s in a row are not enough ----------

  lemma {:induction false} FewRejections(ticks: seq<Tick>)
    requires |ticks| <= MAX_UNAUTH_COUNTER && forall i | 0 <= i < |ticks| :: ticks[i].end.Rejected?
    ensures RejectedSince(ticks) == |ticks| && SetDuration(HOUR) !in Events(ticks)
  {
    if ticks != [] {
      hide Events, Retries;
      var init, last := ticks[..|ticks| - 1], ticks[|ticks| - 1];
      FewRejections(init);
      RetriesQuietly(last.failures);
      assert init + [last] == ticks;
      SnocEvents(init, last);
      assert EndEvents(ticks) == [Tried(Unauthorized)];
    }
  }

  lemma {:induction false} RetriesQuietly(n: nat)
    ensures SetDuration(HOUR) !in Retries(n)
  {
    if n > 0 { RetriesQuietly(n - 1); }
  }

  /** After six ticks that end with a 401, with any transient failures before, the interval is not
      extended; with a seventh it is. */
  lemma SixthDoesNotExtend(six: seq<Tick>, seventh: Tick)
    requires |six| == MAX_UNAUTH_COUNTER && seventh.end.Rejected? && forall i | 0 <= i < |six| :: six[i].end.Rejected?
    ensures SetDuration(HOUR) !in Events(six)
    ensures SetDuration(HOUR) in Events(six + [seventh])
  {
    hide Events, Retries;
    FewRejections(six);
    SnocEvents(six, seventh);
    assert (six + [seventh])[..|six|] == six;
    assert EndEvents(six + [seventh]) == [Tried(Unauthorized), SetDuration(HOUR)];
  }
}
