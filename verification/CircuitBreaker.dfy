/**
 The circuit breaker (internal/resilience/circuitbreaker.go).

 `CircuitBreaker` is the object with its fields; `Breaker` is the value of those
 fields, and the step functions on it specify the methods. Every locked section
 reads the clock once, and that reading is a parameter.

 Overlapping `Execute` calls touch the object only in locked sections, so a run is
 any sequence of `Read`, `Success` and `Failure` events, in any order.
 */
module CircuitBreakers {
  import opened Basics

  datatype CircuitState = Closed | Open | HalfOpen

  datatype Config = Config(failureThreshold: int, openDuration: int, successThreshold: int)

  datatype Breaker = Breaker(state: CircuitState, failures: nat, successes: nat, lastFailure: int, openedAt: int)

  const New := Breaker(Closed, 0, 0, 0, 0)

  /** Failures in a row that open a closed circuit: a threshold below 1 acts as 1. */
  function Trip(cfg: Config): int {
    Max(1, cfg.failureThreshold)
  }

  /** Successes that close a half-open circuit: a threshold below 1 acts as 1. */
  function Heal(cfg: Config): int {
    Max(1, cfg.successThreshold)
  }

  function Transition(b: Breaker, to: CircuitState, now: int): Breaker {
    if b.state == to then b else
    match to
    case Closed => b.(state := Closed, failures := 0, successes := 0)
    case Open => b.(state := Open, openedAt := now, successes := 0)
    case HalfOpen => b.(state := HalfOpen, successes := 0)
  }

  function Current(cfg: Config, b: Breaker, now: int): Breaker {
    if b.state == Open && now - b.openedAt >= cfg.openDuration then Transition(b, HalfOpen, now) else b
  }

  function Succeeded(cfg: Config, b: Breaker): Breaker {
    match b.state
    case Closed => b.(failures := 0)
    case Open => b
    case HalfOpen =>
      var c := b.(successes := b.successes + 1);
      if c.successes >= cfg.successThreshold then Transition(c, Closed, 0) else c
  }

  function Failed(cfg: Config, b: Breaker, now: int): Breaker {
    var c := b.(lastFailure := now);
    match b.state
    case Closed =>
      var d := c.(failures := c.failures + 1);
      if d.failures >= cfg.failureThreshold then Transition(d, Open, now) else d
    case Open => c
    case HalfOpen => Transition(c, Open, now)
  }

  datatype ExecuteResult = Rejected | FnFailed | FnSucceeded

  class CircuitBreaker {
    const config: Config
    var state: CircuitState
    var failures: nat
    var successes: nat
    var lastFailure: int
    var openedAt: int

    ghost function Value(): Breaker
      reads this
    {
      Breaker(state, failures, successes, lastFailure, openedAt)
    }

    constructor (config: Config)
      ensures this.config == config && Value() == New
    {
      this.config := config;
      state, failures, successes, lastFailure, openedAt := Closed, 0, 0, 0, 0;
    }

    method TransitionTo(to: CircuitState, now: int)
      modifies this
      ensures Value() == Transition(old(Value()), to, now)
    {
      if state == to {
        return;
      }
      state := to;
      match to
      case Closed => failures := 0; successes := 0;
      case Open => openedAt := now; successes := 0;
      case HalfOpen => successes := 0;
    }

    method State(now: int) returns (s: CircuitState)
      modifies this
      ensures Value() == Current(config, old(Value()), now)
      ensures s == state
    {
      if state == Open {
        if now - openedAt >= config.openDuration {
          TransitionTo(HalfOpen, now);
        }
      }
      s := state;
    }

    method RecordSuccess()
      modifies this
      ensures Value() == Succeeded(config, old(Value()))
    {
      match state
      case Closed =>
        failures := 0;
      case Open =>
      case HalfOpen =>
        successes := successes + 1;
        if successes >= config.successThreshold {
          TransitionTo(Closed, 0);
        }
    }

    method RecordFailure(now: int)
      modifies this
      ensures Value() == Failed(config, old(Value()), now)
    {
      lastFailure := now;
      match state
      case Closed =>
        failures := failures + 1;
        if failures >= config.failureThreshold {
          TransitionTo(Open, now);
        }
      case Open =>
      case HalfOpen =>
        TransitionTo(Open, now);
    }

    /** One operation of the trace. */
    method Apply(e: Event)
      modifies this
      ensures Value() == Step(config, old(Value()), e)
    {
      match e
      case Read(at) => var _ := State(at);
      case Success(_) => RecordSuccess();
      case Failure(at) => RecordFailure(at);
    }

    /** A call with nothing overlapping it: `fails` is what the wrapped function does. */
    method Execute(now: int, fails: bool, done: int) returns (r: ExecuteResult)
      modifies this
      ensures Value() == Serve(config, old(Value()), Call(now, done), fails)
      ensures r == Rejected <==> !Admits(config, old(Value()), now)
      ensures r != Rejected ==> r == if fails then FnFailed else FnSucceeded
    {
      var s := State(now);
      if s == Open {
        return Rejected;
      }
      if fails {
        RecordFailure(done);
        return FnFailed;
      }
      RecordSuccess();
      return FnSucceeded;
    }
  }

  predicate Admits(cfg: Config, b: Breaker, now: int) {
    Current(cfg, b, now).state != Open
  }

  // ------------------------------------------------------------------
  // The state is a function of the trace.
  // ------------------------------------------------------------------

  datatype Event = Read(at: int) | Success(at: int) | Failure(at: int)

  function Step(cfg: Config, b: Breaker, e: Event): Breaker {
    match e
    case Read(at) => Current(cfg, b, at)
    case Success(_) => Succeeded(cfg, b)
    case Failure(at) => Failed(cfg, b, at)
  }

  function Run(cfg: Config, tr: seq<Event>): Breaker {
    if tr == [] then New else Step(cfg, Run(cfg, tr[..|tr|-1]), tr[|tr|-1])
  }

  /** Failures since the last success; reads in between do not interrupt the run. */
  function TrailingFailures(tr: seq<Event>): nat {
    if tr == [] then 0 else
    match tr[|tr|-1]
    case Read(_) => TrailingFailures(tr[..|tr|-1])
    case Success(_) => 0
    case Failure(_) => TrailingFailures(tr[..|tr|-1]) + 1
  }

  function Successes(tr: seq<Event>): nat {
    if tr == [] then 0 else Successes(tr[..|tr|-1]) + (if tr[|tr|-1].Success? then 1 else 0)
  }

  predicate NoFailure(tr: seq<Event>) {
    forall i | 0 <= i < |tr| :: !tr[i].Failure?
  }

  /** Where the trace is: the current phase and the number of events before it began. */
  datatype Phase = Phase(kind: CircuitState, start: nat)

  /**
   The reference definition: it keeps no counter. It only looks back at the events
   since the phase began.
   */
  function PhaseOf(cfg: Config, tr: seq<Event>): (p: Phase)
    ensures p.start <= |tr|
    ensures p.kind != Closed ==> 0 < p.start
  {
    if tr == [] then Phase(Closed, 0) else
    var n := |tr|;
    var p := PhaseOf(cfg, tr[..n-1]);
    match p.kind
    case Closed =>
      if TrailingFailures(tr[p.start..]) == Trip(cfg) then Phase(Open, n) else p
    case Open =>
      if tr[n-1].Read? && tr[n-1].at - tr[p.start-1].at >= cfg.openDuration then Phase(HalfOpen, n) else p
    case HalfOpen =>
      if tr[n-1].Failure? then Phase(Open, n)
      else if Successes(tr[p.start..]) == Heal(cfg) then Phase(Closed, n) else p
  }

  /** The time of the last failure, 0 when there was none. */
  function LastFailureAt(tr: seq<Event>): int {
    if tr == [] then 0
    else if tr[|tr|-1].Failure? then tr[|tr|-1].at
    else LastFailureAt(tr[..|tr|-1])
  }

  /** The whole state of the breaker `b`, read off the trace alone. */
  ghost predicate Describes(cfg: Config, tr: seq<Event>, b: Breaker) {
    var p := PhaseOf(cfg, tr);
    && b.state == p.kind
    && b.lastFailure == LastFailureAt(tr)
    && (p.kind == Closed ==> b.failures == TrailingFailures(tr[p.start..]) < Trip(cfg))
    && (p.kind != Closed ==> b.failures == Trip(cfg))
    && (p.kind == HalfOpen ==>
          && NoFailure(tr[p.start..])
          && b.successes == Successes(tr[p.start..]) < Heal(cfg))
    && (p.kind != HalfOpen ==> b.successes == 0)
    && (p.kind == Open ==> tr[p.start-1].Failure? && b.openedAt == tr[p.start-1].at)
  }

  /** What the last event adds to a stretch of the trace. */
  lemma LastOfStretch(tr: seq<Event>, from: nat)
    requires from < |tr|
    ensures var n := |tr|;
            && Successes(tr[from..]) == Successes(tr[..n-1][from..]) + (if tr[n-1].Success? then 1 else 0)
            && TrailingFailures(tr[from..]) == (
                 match tr[n-1]
                 case Read(_) => TrailingFailures(tr[..n-1][from..])
                 case Success(_) => 0
                 case Failure(_) => TrailingFailures(tr[..n-1][from..]) + 1)
            && (NoFailure(tr[..n-1][from..]) && !tr[n-1].Failure? ==> NoFailure(tr[from..]))
  {
    var s := tr[from..];
    assert s[..|s|-1] == tr[..|tr|-1][from..] && s[|s|-1] == tr[|tr|-1];
    if NoFailure(s[..|s|-1]) && !tr[|tr|-1].Failure? {
      NoFailureExtend(s);
    }
  }

  /** A phase that has just begun. */
  lemma NothingYet(tr: seq<Event>)
    ensures Successes(tr[|tr|..]) == 0 && TrailingFailures(tr[|tr|..]) == 0 && NoFailure(tr[|tr|..])
  {
    assert tr[|tr|..] == [];
  }

  lemma NoFailureExtend(tr: seq<Event>)
    requires tr != [] && NoFailure(tr[..|tr|-1]) && !tr[|tr|-1].Failure?
    ensures NoFailure(tr)
  {
    forall i | 0 <= i < |tr| ensures !tr[i].Failure? {
      if i < |tr| - 1 {
        assert tr[i] == tr[..|tr|-1][i];
      }
    }
  }

  lemma ExtendClosed(cfg: Config, tr: seq<Event>)
    requires tr != [] && PhaseOf(cfg, tr[..|tr|-1]).kind == Closed
    requires Describes(cfg, tr[..|tr|-1], Run(cfg, tr[..|tr|-1]))
    ensures Describes(cfg, tr, Run(cfg, tr))
  {
    hide Successes;
    hide TrailingFailures;
    hide NoFailure;
    LastOfStretch(tr, PhaseOf(cfg, tr[..|tr|-1]).start);
    NothingYet(tr);
  }

  /** The open phase ends with the last event. */
  lemma ExtendOpenEnds(cfg: Config, tr: seq<Event>)
    requires tr != [] && PhaseOf(cfg, tr[..|tr|-1]).kind == Open && PhaseOf(cfg, tr).kind == HalfOpen
    requires Describes(cfg, tr[..|tr|-1], Run(cfg, tr[..|tr|-1]))
    ensures Describes(cfg, tr, Run(cfg, tr))
  {
    hide Successes;
    hide TrailingFailures;
    hide NoFailure;
    var n := |tr|;
    var p := PhaseOf(cfg, tr[..n-1]);
    assert tr[..n-1][p.start-1] == tr[p.start-1];
    assert PhaseOf(cfg, tr) == Phase(HalfOpen, n);
    NothingYet(tr);
  }

  lemma RunLast(cfg: Config, tr: seq<Event>)
    requires tr != []
    ensures Run(cfg, tr) == Step(cfg, Run(cfg, tr[..|tr|-1]), tr[|tr|-1])
    ensures LastFailureAt(tr) == if tr[|tr|-1].Failure? then tr[|tr|-1].at else LastFailureAt(tr[..|tr|-1])
  {
    hide Step;
  }

  /** The read comes when the open period is over. */
  predicate Due(cfg: Config, opening: Event, e: Event) {
    e.Read? && e.at - opening.at >= cfg.openDuration
  }

  /** The breaker was opened by `opening`, and failed last at `last`. */
  predicate OpenedBy(cfg: Config, b: Breaker, opening: Event, last: int) {
    && b.state == Open && b.failures == Trip(cfg) && b.successes == 0
    && b.lastFailure == last && opening.Failure? && b.openedAt == opening.at
  }

  lemma DescribesOpen(cfg: Config, tr: seq<Event>, b: Breaker, opening: Event)
    requires PhaseOf(cfg, tr).kind == Open && opening == tr[PhaseOf(cfg, tr).start-1]
    ensures Describes(cfg, tr, b) <==> OpenedBy(cfg, b, opening, LastFailureAt(tr))
  {
    hide PhaseOf;
    hide LastFailureAt;
    hide Trip;
  }

  lemma OpenPhaseStays(cfg: Config, tr: seq<Event>)
    requires tr != [] && PhaseOf(cfg, tr[..|tr|-1]).kind == Open && PhaseOf(cfg, tr).kind == Open
    ensures var n, p := |tr|, PhaseOf(cfg, tr[..|tr|-1]);
            PhaseOf(cfg, tr) == p && tr[..n-1][p.start-1] == tr[p.start-1] && !Due(cfg, tr[p.start-1], tr[n-1])
  {
    hide Successes;
    hide TrailingFailures;
  }

  lemma OpenStays(cfg: Config, b: Breaker, opening: Event, last: int, e: Event)
    requires OpenedBy(cfg, b, opening, last) && !Due(cfg, opening, e)
    ensures OpenedBy(cfg, Step(cfg, b, e), opening, if e.Failure? then e.at else last)
  {
  }

  /** The open phase goes on. */
  lemma ExtendOpenStays(cfg: Config, tr: seq<Event>, init: seq<Event>, p: Phase)
    requires tr != [] && init == tr[..|tr|-1] && p == PhaseOf(cfg, init) == PhaseOf(cfg, tr) && p.kind == Open
    requires Describes(cfg, init, Run(cfg, init))
    ensures Describes(cfg, tr, Run(cfg, tr))
  {
    hide Describes;
    hide PhaseOf;
    hide Run;
    hide Step;
    hide LastFailureAt;
    hide Due;
    hide OpenedBy;
    var opening := tr[p.start-1];
    OpenPhaseStays(cfg, tr);
    RunLast(cfg, tr);
    DescribesOpen(cfg, init, Run(cfg, init), opening);
    OpenStays(cfg, Run(cfg, init), opening, LastFailureAt(init), tr[|tr|-1]);
    DescribesOpen(cfg, tr, Run(cfg, tr), opening);
  }

  lemma ExtendOpen(cfg: Config, tr: seq<Event>)
    requires tr != [] && PhaseOf(cfg, tr[..|tr|-1]).kind == Open
    requires Describes(cfg, tr[..|tr|-1], Run(cfg, tr[..|tr|-1]))
    ensures Describes(cfg, tr, Run(cfg, tr))
  {
    hide Describes;
    hide Run;
    hide Successes;
    hide TrailingFailures;
    if PhaseOf(cfg, tr).kind == HalfOpen {
      ExtendOpenEnds(cfg, tr);
    } else {
      OpenPhaseStays(cfg, tr);
      ExtendOpenStays(cfg, tr, tr[..|tr|-1], PhaseOf(cfg, tr));
    }
  }

  lemma ExtendHalfOpen(cfg: Config, tr: seq<Event>)
    requires tr != [] && PhaseOf(cfg, tr[..|tr|-1]).kind == HalfOpen
    requires Describes(cfg, tr[..|tr|-1], Run(cfg, tr[..|tr|-1]))
    ensures Describes(cfg, tr, Run(cfg, tr))
  {
    hide Successes;
    hide TrailingFailures;
    hide NoFailure;
    LastOfStretch(tr, PhaseOf(cfg, tr[..|tr|-1]).start);
    NothingYet(tr);
  }

  lemma {:induction false} StateIsFunctionOfTrace(cfg: Config, tr: seq<Event>)
    ensures Describes(cfg, tr, Run(cfg, tr))
  {
    if tr == [] {
    } else {
      var before := tr[..|tr|-1];
      StateIsFunctionOfTrace(cfg, before);
      match PhaseOf(cfg, before).kind
      case Closed => ExtendClosed(cfg, tr);
      case Open => ExtendOpen(cfg, tr);
      case HalfOpen => ExtendHalfOpen(cfg, tr);
    }
  }

  /** The phase of the trace is the one that began at its start, and has lasted since. */
  lemma {:induction false} PhaseLasts(cfg: Config, tr: seq<Event>, k: nat)
    requires PhaseOf(cfg, tr).start <= k <= |tr|
    ensures PhaseOf(cfg, tr[..k]) == PhaseOf(cfg, tr)
    decreases |tr|
  {
    hide Successes;
    hide TrailingFailures;
    if k == |tr| {
      assert tr[..k] == tr;
    } else {
      var before := tr[..|tr|-1];
      assert PhaseOf(cfg, before) == PhaseOf(cfg, tr);
      PhaseLasts(cfg, before, k);
      assert before[..k] == tr[..k];
    }
  }

  /** From `from` on, and before `to`, the trace is in the phase of this kind that begins at `from`. */
  ghost predicate Throughout(cfg: Config, tr: seq<Event>, kind: CircuitState, from: nat, to: nat)
    requires to <= |tr|
  {
    forall k | from <= k < to :: PhaseOf(cfg, tr[..k]) == Phase(kind, from)
  }

  lemma ThroughoutLast(cfg: Config, tr: seq<Event>, k: nat)
    requires k < |tr|
    ensures var p := PhaseOf(cfg, tr[..k]); Throughout(cfg, tr, p.kind, p.start, k + 1)
  {
    var p := PhaseOf(cfg, tr[..k]);
    forall i | p.start <= i < k + 1 ensures PhaseOf(cfg, tr[..i]) == p {
      PhaseLasts(cfg, tr[..k], i);
      assert tr[..k][..i] == tr[..i];
    }
  }

  /**
   A half-open phase follows an open one: from the failure at `o` that opened the circuit
   until the read that made it half-open, at least `openDuration` later, it was open throughout.
   */
  lemma HalfOpenFollowsOpen(cfg: Config, tr: seq<Event>) returns (o: nat)
    requires PhaseOf(cfg, tr).kind == HalfOpen
    ensures var h := PhaseOf(cfg, tr).start;
            && 0 < o < h
            && tr[o-1].Failure?
            && Throughout(cfg, tr, Open, o, h)
            && tr[h-1].Read? && tr[h-1].at - tr[o-1].at >= cfg.openDuration
  {
    hide Successes;
    hide TrailingFailures;
    var h := PhaseOf(cfg, tr).start;
    PhaseLasts(cfg, tr, h);
    var now := tr[..h];
    var before := now[..h-1];
    assert before == tr[..h-1];
    o := PhaseOf(cfg, before).start;
    OpenedByFailure(cfg, before);
    ThroughoutLast(cfg, tr, h - 1);
  }

  lemma OpenedByFailure(cfg: Config, tr: seq<Event>)
    requires PhaseOf(cfg, tr).kind == Open
    ensures tr[PhaseOf(cfg, tr).start-1].Failure?
  {
    StateIsFunctionOfTrace(cfg, tr);
  }

  /**
   A circuit that closes again was probed. Before the closed phase that starts at `s` it was
   half-open throughout since some `h`, with exactly `Heal` successes and no failure, and
   before that open throughout since the failure at `o`, at least `openDuration` before `h`.
   */
  lemma ClosingNeedsProbes(cfg: Config, tr: seq<Event>) returns (o: nat, h: nat)
    requires PhaseOf(cfg, tr).kind == Closed && 0 < PhaseOf(cfg, tr).start
    ensures var s := PhaseOf(cfg, tr).start;
            && 0 < o < h < s
            && tr[o-1].Failure?
            && Throughout(cfg, tr, Open, o, h)
            && tr[h-1].Read? && tr[h-1].at - tr[o-1].at >= cfg.openDuration
            && Throughout(cfg, tr, HalfOpen, h, s)
            && NoFailure(tr[h..s])
            && Successes(tr[h..s]) == Heal(cfg)
            && tr[s-1].Success?
  {
    hide Successes;
    hide TrailingFailures;
    hide NoFailure;
    hide PhaseOf;
    var s := PhaseOf(cfg, tr).start;
    PhaseLasts(cfg, tr, s);
    var now := tr[..s];
    var before := now[..s-1];
    assert before == tr[..s-1];
    ProbesOfClosing(cfg, now);
    h := PhaseOf(cfg, before).start;
    o := HalfOpenFollowsOpen(cfg, before);
    ThroughoutLast(cfg, tr, s - 1);
    forall k | o <= k < h ensures PhaseOf(cfg, tr[..k]) == Phase(Open, o) {
      assert before[..k] == tr[..k];
    }
    assert tr[h..s] == now[h..];
  }

  lemma HalfOpenHasNoFailure(cfg: Config, tr: seq<Event>)
    requires PhaseOf(cfg, tr).kind == HalfOpen
    ensures NoFailure(tr[PhaseOf(cfg, tr).start..])
    ensures Successes(tr[PhaseOf(cfg, tr).start..]) < Heal(cfg)
  {
    StateIsFunctionOfTrace(cfg, tr);
  }

  lemma ClosedByLastEvent(cfg: Config, tr: seq<Event>)
    requires tr != [] && PhaseOf(cfg, tr) == Phase(Closed, |tr|)
    ensures var q := PhaseOf(cfg, tr[..|tr|-1]);
            q.kind == HalfOpen && !tr[|tr|-1].Failure? && Successes(tr[q.start..]) == Heal(cfg)
  {
    hide Successes;
    hide TrailingFailures;
  }

  /** The event that closes the circuit completes the half-open phase before it. */
  lemma ProbesOfClosing(cfg: Config, tr: seq<Event>)
    requires tr != [] && PhaseOf(cfg, tr) == Phase(Closed, |tr|)
    ensures var q := PhaseOf(cfg, tr[..|tr|-1]);
            && q.kind == HalfOpen
            && NoFailure(tr[q.start..])
            && Successes(tr[q.start..]) == Heal(cfg)
            && tr[|tr|-1].Success?
  {
    hide NoFailure;
    hide PhaseOf;
    hide Successes;
    ClosedByLastEvent(cfg, tr);
    HalfOpenHasNoFailure(cfg, tr[..|tr|-1]);
    LastOfStretch(tr, PhaseOf(cfg, tr[..|tr|-1]).start);
  }

  // ------------------------------------------------------------------
  // Load on a provider that always fails.
  // ------------------------------------------------------------------

  /** Serial use: a state read, or a call that starts at `now` and returns at `done`. */
  datatype Op = StateRead(now: int) | Call(now: int, done: int)

  /** One operation, when the provider fails (or not) if it is reached. */
  function Serve(cfg: Config, b: Breaker, op: Op, fails: bool): Breaker {
    var c := Current(cfg, b, op.now);
    if op.StateRead? || c.state == Open then c
    else if fails then Failed(cfg, c, op.done)
    else Succeeded(cfg, c)
  }

  /** The clock never goes back from `t`, and every operation starts by `end`. */
  predicate Serial(ops: seq<Op>, t: int, end: int) {
    ops == [] || (
      && t <= ops[0].now <= end
      && (ops[0].Call? ==> ops[0].now <= ops[0].done)
      && Serial(ops[1..], if ops[0].Call? then ops[0].done else ops[0].now, end))
  }

  /** How often a provider that always fails is actually called. */
  function Admitted(cfg: Config, b: Breaker, ops: seq<Op>): nat
    decreases |ops|
  {
    if ops == [] then 0 else
    (if ops[0].Call? && Admits(cfg, b, ops[0].now) then 1 else 0)
    + Admitted(cfg, Serve(cfg, b, ops[0], true), ops[1..])
  }

  lemma MulOrder(k: int, m: int, d: int)
    requires 0 < d
    ensures k < m <==> k * d < m * d
  {
    if k < m {
      assert (m - k) * d > 0;
    } else {
      assert (k - m) * d >= 0;
    }
  }

  lemma AtMostQuotient(k: int, x: nat, d: int)
    requires 0 < d && k * d <= x
    ensures k <= x / d
  {
    MulOrder(k, x / d + 1, d);
  }

  /** What `k` admissions cost: an open period each. */
  function Cost(k: int, d: int): int {
    k * d
  }

  lemma CostNext(k: int, d: int)
    ensures Cost(k + 1, d) == Cost(k, d) + d
  {
  }

  /** The calls that the present phase allows before an open period has to pass. */
  function Free(cfg: Config, b: Breaker): int {
    match b.state
    case Closed => Trip(cfg) - b.failures
    case HalfOpen => 1
    case Open => 0
  }

  /** Of `n` calls up to `end`, those beyond the free ones are paid for since `t`, or since the breaker opened. */
  predicate PaidFor(cfg: Config, b: Breaker, n: int, t: int, end: int) {
    Cost(n - Free(cfg, b), cfg.openDuration) <= Max(0, end - if b.state == Open then b.openedAt else t)
  }

  /** What a breaker in serial use keeps. */
  predicate Sane(cfg: Config, b: Breaker, t: int) {
    && (b.state == Closed ==> b.failures < Trip(cfg))
    && (b.state == Open ==> b.openedAt <= t)
  }

  /** When operations after `op` are paid for, so are they together with `op`. */
  lemma PaidForNext(cfg: Config, b: Breaker, op: Op, n: int, t: int, end: int)
    requires cfg.openDuration > 0 && Sane(cfg, b, t) && Serial([op], t, end)
    ensures var b', after := Serve(cfg, b, op, true), if op.Call? then op.done else op.now;
            && Sane(cfg, b', after)
            && (PaidFor(cfg, b', n, after, end) ==>
                  PaidFor(cfg, b, n + if op.Call? && Admits(cfg, b, op.now) then 1 else 0, t, end))
  {
    hide Cost;
    CostNext(n - 1, cfg.openDuration);
    CostNext(n, cfg.openDuration);
  }

  /**
   The calls admitted beyond those that the present phase allows at once are each
   paid for by a full `openDuration` of elapsed time.
   */
  lemma {:induction false} AdmittedIsPaidFor(cfg: Config, b: Breaker, ops: seq<Op>, t: int, end: int)
    requires cfg.openDuration > 0
    requires Sane(cfg, b, t) && Serial(ops, t, end)
    ensures PaidFor(cfg, b, Admitted(cfg, b, ops), t, end)
    decreases |ops|
  {
    if ops == [] {
      MulOrder(0, -Free(cfg, b), cfg.openDuration);
    } else {
      var op, rest := ops[0], ops[1..];
      assert Serial([op], t, end);
      var b' := Serve(cfg, b, op, true);
      PaidForNext(cfg, b, op, Admitted(cfg, b', rest), t, end);
      AdmittedIsPaidFor(cfg, b', rest, if op.Call? then op.done else op.now, end);
    }
  }

  /**
   A provider that always fails is called at most `Trip + T / OpenDuration` times
   within `T` of the start, however many state reads are interleaved.
   */
  lemma DeadProviderBoundedLoad(cfg: Config, ops: seq<Op>, t0: int, T: nat)
    requires cfg.openDuration > 0
    requires Serial(ops, t0, t0 + T)
    ensures Admitted(cfg, New, ops) <= Trip(cfg) + T / cfg.openDuration
  {
    AdmittedIsPaidFor(cfg, New, ops, t0, t0 + T);
    AtMostQuotient(Admitted(cfg, New, ops) - Trip(cfg), T, cfg.openDuration);
  }

  /** `n` calls, one at the end of each open period that starts at `t`. */
  function Probes(t: int, d: int, n: nat): seq<Op>
    decreases n
  {
    if n == 0 then [] else [Call(t + d, t + d)] + Probes(t + d, d, n - 1)
  }

  lemma {:induction false} ProbesAreAdmitted(cfg: Config, b: Breaker, t: int, n: nat, end: int)
    requires cfg.openDuration > 0 && b.state == Open && b.openedAt == t
    requires n * cfg.openDuration <= end - t
    ensures Serial(Probes(t, cfg.openDuration, n), t, end)
    ensures Admitted(cfg, b, Probes(t, cfg.openDuration, n)) == n
    decreases n
  {
    if n > 0 {
      var d := cfg.openDuration;
      var ops := Probes(t, d, n);
      assert ops[1..] == Probes(t + d, d, n - 1);
      MulOrder(0, n, d);
      ProbesAreAdmitted(cfg, Serve(cfg, b, ops[0], true), t + d, n - 1, end);
    }
  }

  /** `n` calls at `t` and then the probes. */
  function Burst(t: int, n: nat, d: int, m: nat): seq<Op> {
    if n == 0 then Probes(t, d, m) else [Call(t, t)] + Burst(t, n - 1, d, m)
  }

  lemma {:induction false} BurstIsAdmitted(cfg: Config, b: Breaker, t: int, n: nat, m: nat, end: int)
    requires cfg.openDuration > 0 && 0 < n && b.state == Closed && b.failures + n == Trip(cfg)
    requires m * cfg.openDuration <= end - t && t <= end
    ensures Serial(Burst(t, n, cfg.openDuration, m), t, end)
    ensures Admitted(cfg, b, Burst(t, n, cfg.openDuration, m)) == n + m
    decreases n
  {
    var ops := Burst(t, n, cfg.openDuration, m);
    assert ops[1..] == Burst(t, n - 1, cfg.openDuration, m);
    if n == 1 {
      ProbesAreAdmitted(cfg, Serve(cfg, b, ops[0], true), t, m, end);
    } else {
      BurstIsAdmitted(cfg, Serve(cfg, b, ops[0], true), t, n - 1, m, end);
    }
  }

  /** No smaller bound holds: for every configuration and horizon some schedule reaches it. */
  lemma DeadProviderBoundIsTight(cfg: Config, t0: int, T: nat) returns (ops: seq<Op>)
    requires cfg.openDuration > 0
    ensures Serial(ops, t0, t0 + T)
    ensures Admitted(cfg, New, ops) == Trip(cfg) + T / cfg.openDuration
  {
    ops := Burst(t0, Trip(cfg), cfg.openDuration, T / cfg.openDuration);
    BurstIsAdmitted(cfg, New, t0, Trip(cfg), T / cfg.openDuration, t0 + T);
  }

  // ------------------------------------------------------------------
  // The manager: one breaker per name.
  // ------------------------------------------------------------------

  class Manager {
    const config: Config
    var breakers: map<string, CircuitBreaker>

    /** Every name has its own breaker object, with the manager's configuration. */
    ghost predicate Valid()
      reads this, breakers.Values
    {
      && (forall n <- breakers :: breakers[n].config == config)
      && (forall n, m | n in breakers && m in breakers && n != m :: breakers[n] != breakers[m])
    }

    ghost function View(): map<string, Breaker>
      reads this, breakers.Values
    {
      map n | n in breakers :: breakers[n].Value()
    }

    constructor (config: Config)
      ensures this.config == config && breakers == map[] && Valid() && View() == map[]
    {
      this.config := config;
      breakers := map[];
    }

    /** The breaker value registered under `name`, new if there is none yet. */
    ghost function Of(name: string): Breaker
      reads this, breakers.Values
    {
      if name in breakers then breakers[name].Value() else New
    }

    method Get(name: string) returns (cb: CircuitBreaker)
      requires Valid()
      modifies this
      ensures Valid()
      ensures name in breakers && breakers[name] == cb
      ensures name in old(breakers) ==> breakers == old(breakers)
      ensures name !in old(breakers) ==> fresh(cb) && breakers == old(breakers)[name := cb]
      ensures View() == old(View())[name := old(Of(name))]
    {
      if name in breakers {
        return breakers[name];
      }
      cb := new CircuitBreaker(config);
      breakers := breakers[name := cb];
    }

    /** One operation on a breaker that exists. */
    method Touch(name: string, e: Event)
      requires Valid() && name in breakers
      modifies breakers[name]
      ensures Valid() && View() == old(View())[name := Step(config, old(View())[name], e)]
    {
      hide Step;
      breakers[name].Apply(e);
    }

    /** One operation on the breaker that Get returns. */
    method Signal(name: string, e: Event)
      requires Valid()
      modifies this, breakers.Values
      ensures Valid() && fresh(breakers.Values - old(breakers.Values))
      ensures View() == old(View())[name := Step(config, old(Of(name)), e)]
    {
      hide Step;
      hide Manager.Valid;
      hide Manager.View;
      hide Manager.Of;
      var _ := Get(name);
      Touch(name, e);
    }

    /** Get(name).State() */
    method Check(name: string, now: int) returns (s: CircuitState)
      requires Valid()
      modifies this, breakers.Values
      ensures Valid() && fresh(breakers.Values - old(breakers.Values))
      ensures View() == old(View())[name := Current(config, old(Of(name)), now)]
      ensures s == Current(config, old(Of(name)), now).state
    {
      hide Current;
      Signal(name, Read(now));
      assert View()[name].state == breakers[name].state;
      return breakers[name].state;
    }

    /** Get(name).RecordSuccess() */
    method Succeed(name: string)
      requires Valid()
      modifies this, breakers.Values
      ensures Valid() && fresh(breakers.Values - old(breakers.Values))
      ensures View() == old(View())[name := Succeeded(config, old(Of(name)))]
    {
      hide Succeeded;
      Signal(name, Success(0));
    }

    /** Get(name).RecordFailure() */
    method Fail(name: string, now: int)
      requires Valid()
      modifies this, breakers.Values
      ensures Valid() && fresh(breakers.Values - old(breakers.Values))
      ensures View() == old(View())[name := Failed(config, old(Of(name)), now)]
    {
      hide Failed;
      Signal(name, Failure(now));
    }

    /** The state of a breaker that exists. */
    method ReadOne(name: string, now: int) returns (s: CircuitState)
      requires Valid() && name in breakers
      modifies breakers[name]
      ensures Valid() && View() == old(View())[name := Current(config, old(View())[name], now)]
      ensures s == View()[name].state
    {
      hide Current;
      Touch(name, Read(now));
      assert View()[name].state == breakers[name].state;
      return breakers[name].state;
    }

    /** Reading all states moves every breaker whose open period is over to half-open. */
    method States(now: int) returns (states: map<string, CircuitState>)
      requires Valid()
      modifies breakers.Values
      ensures Valid() && View() == AllCurrent(config, old(View()), now)
      ensures states.Keys == breakers.Keys && forall n <- states :: states[n] == View()[n].state
    {
      ghost var before := View();
      var todo := breakers.Keys;
      assert before.Keys == todo;
      NoneRead(config, before, now);
      hide PartCurrent;
      hide Current;
      hide Manager.Valid;
      hide Manager.View;
      states := map[];
      while todo != {}
        invariant todo <= breakers.Keys && states.Keys == breakers.Keys - todo && Valid()
        invariant View() == PartCurrent(config, before, todo, now)
        invariant forall n <- states :: n in View() && states[n] == View()[n].state
        decreases todo
      {
        var n :| n in todo;
        OneMoreRead(config, before, todo, n, now);
        var s := ReadOne(n, now);
        KeysAfter(states, n, s, breakers.Keys, todo);
        states := states[n := s];
        todo := todo - {n};
      }
      AllRead(config, before, now);
    }
  }

  lemma KeysAfter(states: map<string, CircuitState>, n: string, s: CircuitState, all: set<string>, todo: set<string>)
    requires states.Keys == all - todo && n in todo && todo <= all
    ensures states[n := s].Keys == all - (todo - {n})
  {
  }

  /** The breakers in `todo` as they were, all others read. */
  function PartCurrent(cfg: Config, breakers: map<string, Breaker>, todo: set<string>, now: int): map<string, Breaker> {
    map n | n in breakers :: if n in todo then breakers[n] else Current(cfg, breakers[n], now)
  }

  lemma NoneRead(cfg: Config, breakers: map<string, Breaker>, now: int)
    ensures PartCurrent(cfg, breakers, breakers.Keys, now) == breakers
  {
  }

  lemma AllRead(cfg: Config, breakers: map<string, Breaker>, now: int)
    ensures PartCurrent(cfg, breakers, {}, now) == AllCurrent(cfg, breakers, now)
  {
  }

  lemma OneMoreRead(cfg: Config, breakers: map<string, Breaker>, todo: set<string>, n: string, now: int)
    requires n in breakers && n in todo
    ensures n in PartCurrent(cfg, breakers, todo, now)
    ensures var part := PartCurrent(cfg, breakers, todo, now);
            part[n := Current(cfg, part[n], now)] == PartCurrent(cfg, breakers, todo - {n}, now)
  {
    hide Current;
  }

  function AllCurrent(cfg: Config, breakers: map<string, Breaker>, now: int): map<string, Breaker> {
    map n | n in breakers :: Current(cfg, breakers[n], now)
  }
}
