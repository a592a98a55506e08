/**
 The order of a symbol's events when an event may be accepted more than once. Every accepted
 event gets a number of its own, in place of its event id, so that two copies are told apart.
 */
module Occurrences {
  import opened Basics
  import opened PriceEvents
  import opened DeliveryRace

  function Numbered(step: Step, n: nat): Step {
    if Queues(step) then step.(e := step.e.(eventId := Longer("", n))) else step
  }

  /** The run with the event of the n-th step numbered n. */
  function NumberAll(steps: seq<Step>): (numbered: seq<Step>)
    ensures |numbered| == |steps|
  {
    if steps == [] then []
    else NumberAll(steps[..|steps|-1]) + [Numbered(steps[|steps|-1], |steps| - 1)]
  }

  // ------------------------------------------------------------------
  // Numbering changes nothing else.
  // ------------------------------------------------------------------

  /** The same event, apart from the event id. */
  predicate Same(e: PriceEvent, f: PriceEvent) {
    e.(eventId := f.eventId) == f
  }

  predicate AllSame(es: seq<PriceEvent>, fs: seq<PriceEvent>) {
    |es| == |fs| && forall i | 0 <= i < |es| :: Same(es[i], fs[i])
  }

  predicate SameMaps(m: map<string, PriceEvent>, n: map<string, PriceEvent>) {
    m.Keys == n.Keys && forall k <- m :: Same(m[k], n[k])
  }

  predicate Alike(s: State, t: State) {
    && AllSame(s.chan, t.chan) && AllSame(s.accepted, t.accepted) && AllSame(s.delivered, t.delivered)
    && s.ended == t.ended
    && match s.phase
       case Idle => t.phase.Idle?
       case Draining(latest, e) => t.phase.Draining? && SameMaps(latest, t.phase.latest) && Same(e, t.phase.event)
       case Refilling(todo) => t.phase.Refilling? && SameMaps(todo, t.phase.todo)
  }

  lemma SameAppend(es: seq<PriceEvent>, fs: seq<PriceEvent>, e: PriceEvent, f: PriceEvent)
    requires AllSame(es, fs) && Same(e, f)
    ensures AllSame(es + [e], fs + [f])
  {
  }

  lemma SameTail(es: seq<PriceEvent>, fs: seq<PriceEvent>)
    requires AllSame(es, fs) && es != []
    ensures |fs| == |es| && Same(es[0], fs[0]) && AllSame(es[1..], fs[1..])
  {
  }

  lemma SameLength(es: seq<PriceEvent>, fs: seq<PriceEvent>)
    requires AllSame(es, fs)
    ensures |es| == |fs|
  {
  }

  lemma AlikeQueue(cap: nat, s: State, t: State, step: Step, n: nat)
    requires Alike(s, t) && Enabled(cap, s, step) && Queues(step)
    ensures Enabled(cap, t, Numbered(step, n)) && Alike(Next(cap, s, step), Next(cap, t, Numbered(step, n)))
  {
    hide AllSame;
    var e, f := step.e, Numbered(step, n).e;
    SameLength(s.chan, t.chan);
    SameAppend(s.accepted, t.accepted, e, f);
    SameAppend(s.chan, t.chan, e, f);
  }

  lemma AlikeDrain(cap: nat, s: State, t: State)
    requires Alike(s, t) && Enabled(cap, s, DrainOne)
    ensures Enabled(cap, t, DrainOne) && Alike(Next(cap, s, DrainOne), Next(cap, t, DrainOne))
  {
    SameTail(s.chan, t.chan);
    hide AllSame;
  }

  lemma AlikeRefill(cap: nat, s: State, t: State, k: string)
    requires Alike(s, t) && Enabled(cap, s, RefillOne(k))
    ensures Enabled(cap, t, RefillOne(k)) && Alike(Next(cap, s, RefillOne(k)), Next(cap, t, RefillOne(k)))
  {
    SameLength(s.chan, t.chan);
    hide AllSame;
    SameAppend(s.chan, t.chan, s.phase.todo[k], t.phase.todo[k]);
  }

  lemma AlikeRead(cap: nat, s: State, t: State)
    requires Alike(s, t) && Enabled(cap, s, Read)
    ensures Enabled(cap, t, Read) && Alike(Next(cap, s, Read), Next(cap, t, Read))
  {
    SameTail(s.chan, t.chan);
    hide AllSame;
    hide SameMaps;
    SameAppend(s.delivered, t.delivered, s.chan[0], t.chan[0]);
  }

  lemma AlikeSwap(cap: nat, s: State, t: State)
    requires Alike(s, t) && Enabled(cap, s, Swap)
    ensures Enabled(cap, t, Swap) && Alike(Next(cap, s, Swap), Next(cap, t, Swap))
  {
    SameLength(s.chan, t.chan);
    assert AllSame([], []);
    hide AllSame;
  }

  lemma AlikeRest(cap: nat, s: State, t: State, step: Step)
    requires Alike(s, t) && Enabled(cap, s, step) && (step.RefillDone? || step.End?)
    ensures Enabled(cap, t, step) && Alike(Next(cap, s, step), Next(cap, t, step))
  {
    hide AllSame;
  }

  lemma AlikeOther(cap: nat, s: State, t: State, step: Step)
    requires Alike(s, t) && Enabled(cap, s, step) && !Queues(step)
    ensures Enabled(cap, t, step) && Alike(Next(cap, s, step), Next(cap, t, step))
  {
    hide Alike;
    hide Next;
    hide Enabled;
    match step
    case DrainOne => AlikeDrain(cap, s, t);
    case Read => AlikeRead(cap, s, t);
    case RefillOne(k) => AlikeRefill(cap, s, t, k);
    case Swap => AlikeSwap(cap, s, t);
    case _ => AlikeRest(cap, s, t, step);
  }

  lemma AlikeNext(cap: nat, s: State, t: State, step: Step, n: nat)
    requires Alike(s, t) && Enabled(cap, s, step)
    ensures Enabled(cap, t, Numbered(step, n)) && Alike(Next(cap, s, step), Next(cap, t, Numbered(step, n)))
    ensures Overtakes(s, step) <==> Overtakes(t, Numbered(step, n))
  {
    if s.chan != [] {
      SameTail(s.chan, t.chan);
    }
    hide Next;
    if Queues(step) {
      AlikeQueue(cap, s, t, step, n);
    } else {
      AlikeOther(cap, s, t, step);
    }
  }

  lemma NumberLast(steps: seq<Step>)
    requires steps != []
    ensures var n, numbered := |steps| - 1, NumberAll(steps);
            numbered[..n] == NumberAll(steps[..n]) && numbered[n] == Numbered(steps[n], n)
  {
  }

  lemma {:induction false} NumberedRun(cap: nat, steps: seq<Step>)
    requires IsRun(cap, steps)
    ensures IsRun(cap, NumberAll(steps)) && Alike(Run(cap, steps), Run(cap, NumberAll(steps)))
    ensures NeverOvertakes(cap, steps) <==> NeverOvertakes(cap, NumberAll(steps))
  {
    hide Alike;
    hide Enabled;
    hide Next;
    hide Overtakes;
    hide Numbered;
    if steps == [] {
      StartsAlike();
    } else {
      var n := |steps| - 1;
      var init := steps[..n];
      NumberLast(steps);
      NumberedRun(cap, init);
      AlikeNext(cap, Run(cap, init), Run(cap, NumberAll(init)), steps[n], n);
      hide NumberAll;
    }
  }

  lemma StartsAlike()
    ensures Alike(START, START)
  {
  }

  // ------------------------------------------------------------------
  // Numbered events are all different.
  // ------------------------------------------------------------------

  /** Numbers grow from one accepted event to the next, and stay below `n`. */
  predicate Growing(es: seq<PriceEvent>, n: nat) {
    && (forall i | 0 <= i < |es| :: |es[i].eventId| < n)
    && (forall i, j | 0 <= i < j < |es| :: |es[i].eventId| < |es[j].eventId|)
  }

  lemma GrowingNext(cap: nat, s: State, step: Step, n: nat)
    requires Growing(s.accepted, n) && Enabled(cap, s, Numbered(step, n))
    ensures Growing(Next(cap, s, Numbered(step, n)).accepted, n + 1)
  {
  }

  lemma {:induction false} NumbersGrow(cap: nat, steps: seq<Step>)
    requires IsRun(cap, NumberAll(steps))
    ensures Growing(Run(cap, NumberAll(steps)).accepted, |steps|)
  {
    hide Enabled;
    hide Next;
    if steps != [] {
      var init, n := steps[..|steps|-1], |steps| - 1;
      NumberLast(steps);
      NumbersGrow(cap, init);
      GrowingNext(cap, Run(cap, NumberAll(init)), steps[n], n);
    }
  }

  lemma GrowingIsSingle(es: seq<PriceEvent>, n: nat, e: PriceEvent)
    requires Growing(es, n)
    ensures Single(es, e)
  {
  }

  lemma {:induction false} NumberedUnrepeated(cap: nat, steps: seq<Step>)
    requires IsRun(cap, NumberAll(steps))
    ensures OvertakesUnrepeated(cap, NumberAll(steps))
  {
    if steps != [] {
      var init, n := steps[..|steps|-1], |steps| - 1;
      NumberLast(steps);
      NumberedUnrepeated(cap, init);
      NumbersGrow(cap, init);
      hide Single;
      var s := Run(cap, NumberAll(init));
      if s.phase.Draining? && s.chan != [] && s.chan[0].symbol in s.phase.latest {
        GrowingIsSingle(s.accepted, n, s.chan[0]);
        GrowingIsSingle(s.accepted, n, s.phase.latest[s.chan[0].symbol]);
      }
    }
  }

  /**
   For every run, events repeated at will: the occurrences of every symbol's events are in order at
   every moment if and only if the reader never overtakes a drained event.
   */
  lemma OccurrencesInOrderIff(cap: nat, steps: seq<Step>)
    requires IsRun(cap, steps)
    ensures IsRun(cap, NumberAll(steps)) && Alike(Run(cap, steps), Run(cap, NumberAll(steps)))
    ensures AlwaysInOrder(cap, NumberAll(steps)) <==> NeverOvertakes(cap, steps)
  {
    hide Alike;
    hide AlwaysInOrder;
    hide NeverOvertakes;
    hide OvertakesUnrepeated;
    hide Run;
    NumberedRun(cap, steps);
    NumberedUnrepeated(cap, steps);
    OrderKeptIffNeverOvertaken(cap, NumberAll(steps));
  }
}
