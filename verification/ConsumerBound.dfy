/**
 The bound on repeated handling is reached: clearing the whole seen set lets an event id
 be handled once more after every clear.
 */
module ConsumerBound {
  import opened Basics
  import opened StreamConsumers
  import opened ConsumerRuns

  // ------------------------------------------------------------------
  // One entry after the other.
  // ------------------------------------------------------------------

  /** Both loops are idle and everything published has been handed out. */
  predicate Resting(s: State) {
    s.reader == Waiting([]) && s.claimer == Waiting([]) && s.next == |s.log|
  }

  lemma Snoc(steps: seq<Step>, step: Step) returns (more: seq<Step>)
    requires IsRun(steps) && OneAtATime(steps) && Enabled(Run(steps), step) && !step.Crash?
    requires Next(Run(steps), step).claimer.Waiting?
    ensures IsRun(more) && OneAtATime(more) && Run(more) == Next(Run(steps), step)
  {
    more := steps + [step];
    assert more[..|more|-1] == steps;
  }

  /** A new event is published, handed out and taken by the reader. */
  lemma EntryTaken(steps: seq<Step>, id: string) returns (more: seq<Step>)
    requires IsRun(steps) && OneAtATime(steps) && Resting(Run(steps)) && id !in Run(steps).core.seen
    ensures IsRun(more) && OneAtATime(more)
    ensures var s, s' := Run(steps), Run(more);
            && s'.log == s.log + [Event(id)] && s'.next == |s'.log|
            && s'.reader == Handling(|s.log|, []) && s'.claimer == Waiting([])
            && s'.core.seen == s.core.seen && s'.core.handled == s.core.handled
            && s'.epoch == s.epoch && s'.past == s.past
  {
    var s := Run(steps);
    hide IsRun;
    hide Run;
    hide OneAtATime;
    RangeOfOne(|s.log|);
    hide Range;
    more := Snoc(steps, Publish(Event(id)));
    more := Snoc(more, Fetch(1, false));
    assert Run(more).reader == Waiting([|s.log|]) && [|s.log|][1..] == [];
    more := Snoc(more, Take(Reader));
  }

  lemma RangeOfOne(n: nat)
    ensures Range(n, 1) == [n]
  {
    assert Range(n, 0) == [];
  }

  /** An unseen event is handled, marked and acknowledged. */
  lemma OneEntry(steps: seq<Step>, id: string) returns (more: seq<Step>)
    requires IsRun(steps) && OneAtATime(steps) && Resting(Run(steps)) && id !in Run(steps).core.seen
    ensures IsRun(more) && OneAtATime(more) && Resting(Run(more))
    ensures var s, s' := Run(steps), Run(more);
            && s'.core.seen == Marked(s.core.seen, id)
            && s'.core.handled == s.core.handled + [id]
            && |s'.past| == |s.past| + if Clears(s.core.seen, id) then 1 else 0
  {
    more := EntryTaken(steps, id);
    hide IsRun;
    hide Run;
    hide OneAtATime;
    more := Snoc(more, HandlerDone(Reader, true));
    more := Snoc(more, MarkSeen(Reader));
    more := Snoc(more, AckDone(Reader, true));
  }

  // ------------------------------------------------------------------
  // Ten thousand other ids.
  // ------------------------------------------------------------------

  function Names(id: string, n: nat): set<string> {
    if n == 0 then {} else Names(id, n - 1) + {Longer(id, n - 1)}
  }

  lemma {:induction false} NamesDiffer(id: string, n: nat)
    ensures |Names(id, n)| == n && forall name <- Names(id, n) :: |id| <= |name| < |id| + n
  {
    if n > 0 {
      NamesDiffer(id, n - 1);
    }
  }

  /** From an empty set, `n` ids are handled, `id` first. */
  lemma {:induction false} Fill(steps: seq<Step>, id: string, n: nat) returns (more: seq<Step>)
    requires IsRun(steps) && OneAtATime(steps) && Resting(Run(steps)) && Run(steps).core.seen == {}
    requires n <= CAPACITY
    ensures IsRun(more) && OneAtATime(more) && Resting(Run(more))
    ensures var s, s' := Run(steps), Run(more);
            && s'.core.seen == Names(id, n) && |s'.past| == |s.past|
            && |s'.core.handled| == |s.core.handled| + n
            && multiset(s'.core.handled)[id] == multiset(s.core.handled)[id] + if n > 0 then 1 else 0
    decreases n
  {
    hide IsRun;
    hide Run;
    hide OneAtATime;
    hide Resting;
    if n == 0 {
      more := steps;
    } else {
      more := Fill(steps, id, n - 1);
      NamesDiffer(id, n - 1);
      NamesDiffer(id, n);
      more := OneEntry(more, Longer(id, n - 1));
      assert |Longer(id, n - 1)| == |id| ==> n == 1;
    }
  }

  /** One whole epoch: the set is filled and cleared, and `id` was handled once in it. */
  lemma Epoch(steps: seq<Step>, id: string) returns (more: seq<Step>)
    requires IsRun(steps) && OneAtATime(steps) && Resting(Run(steps)) && Run(steps).core.seen == {}
    ensures IsRun(more) && OneAtATime(more) && Resting(Run(more)) && Run(more).core.seen == {}
    ensures |Run(more).past| == |Run(steps).past| + 1
    ensures multiset(Run(more).core.handled)[id] == multiset(Run(steps).core.handled)[id] + 1
  {
    hide IsRun;
    hide Run;
    hide OneAtATime;
    hide Resting;
    more := Fill(steps, id, CAPACITY);
    NamesDiffer(id, CAPACITY);
    hide Names;
    hide Longer;
    var last := Longer(id, CAPACITY);
    assert |Names(id, CAPACITY) + {last}| == CAPACITY + 1;
    more := OneEntry(more, last);
  }

  lemma {:induction false} Epochs(id: string, k: nat) returns (steps: seq<Step>)
    ensures IsRun(steps) && OneAtATime(steps) && Resting(Run(steps)) && Run(steps).core.seen == {}
    ensures |Run(steps).past| == k && multiset(Run(steps).core.handled)[id] == k
  {
    if k == 0 {
      steps := [];
    } else {
      steps := Epochs(id, k - 1);
      steps := Epoch(steps, id);
    }
  }

  /** For every id and every number of clears, some one-at-a-time run handles the id once more than that. */
  lemma RepeatBoundIsReached(id: string, k: nat) returns (steps: seq<Step>)
    ensures IsRun(steps) && OneAtATime(steps)
    ensures |Run(steps).past| == k && multiset(Run(steps).core.handled)[id] == k + 1
  {
    hide IsRun;
    hide Run;
    hide OneAtATime;
    hide Resting;
    steps := Epochs(id, k);
    steps := OneEntry(steps, id);
  }

  /** An id whose mark clears the set is unseen again, and the next entry that carries it is handled. */
  lemma ClearingIdIsHandledNext(id: string) returns (steps: seq<Step>)
    ensures IsRun(steps) && OneAtATime(steps)
    ensures var handled := Run(steps).core.handled;
            |handled| == CAPACITY + 2 && handled[CAPACITY] == handled[CAPACITY + 1] == id
  {
    steps := [];
    assert IsRun(steps) && OneAtATime(steps) && Resting(Run(steps));
    hide IsRun;
    hide Run;
    hide OneAtATime;
    hide Resting;
    var others := Longer(id, 1);
    steps := Fill(steps, others, CAPACITY);
    NamesDiffer(others, CAPACITY);
    hide Names;
    hide Longer;
    assert |Names(others, CAPACITY) + {id}| == CAPACITY + 1;
    steps := OneEntry(steps, id);
    steps := OneEntry(steps, id);
  }
}
