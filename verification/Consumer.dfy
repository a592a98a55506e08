/**
 The stream consumer (internal/stream/consumer.go): a Redis consumer group with a read
 loop and a claim loop, acknowledgement after handling, and a bounded set of handled
 event ids.

 Parsing is reduced to its verdict: an entry is malformed or carries an event id.
 */
module StreamConsumers {

  const CAPACITY := 10000

  datatype Payload = Malformed | Event(eventId: string)

  /** `seen` is in memory, `pending` and `acked` are the group's, `handled` is history. */
  datatype Core = Core(seen: set<string>, pending: set<nat>, acked: set<nat>, handled: seq<string>)

  /** markSeen clears the whole set, with the id just added, when it exceeds its capacity. */
  function Marked(seen: set<string>, id: string): (r: set<string>)
    ensures |seen| <= CAPACITY ==> |r| <= CAPACITY
  {
    if |seen + {id}| > CAPACITY then {} else seen + {id}
  }

  predicate Clears(seen: set<string>, id: string) {
    |seen + {id}| > CAPACITY
  }

  /** An acknowledgement takes effect or is lost. */
  function Acked(c: Core, entry: nat, acks: bool): Core {
    if acks then c.(pending := c.pending - {entry}, acked := c.acked + {entry}) else c
  }

  /** processEntry from start to end, when nothing overlaps it. */
  function Processed(c: Core, entry: nat, p: Payload, handles: bool, acks: bool): Core {
    match p
    case Malformed => Acked(c, entry, acks)
    case Event(id) =>
      if id in c.seen then Acked(c, entry, acks)
      else if !handles then c
      else Acked(c.(handled := c.handled + [id], seen := Marked(c.seen, id)), entry, acks)
  }

  class Consumer {
    var seen: set<string>
    ghost var pending: set<nat>
    ghost var acked: set<nat>
    ghost var handled: seq<string>

    ghost function Value(): Core
      reads this
    {
      Core(seen, pending, acked, handled)
    }

    constructor ()
      ensures Value() == Core({}, {}, {}, [])
    {
      seen, pending, acked, handled := {}, {}, {}, [];
    }

    method IsDuplicate(id: string) returns (exists_: bool)
      ensures exists_ <==> id in seen
    {
      exists_ := id in seen;
    }

    method MarkSeen(id: string)
      modifies this`seen
      ensures seen == Marked(old(seen), id)
    {
      seen := seen + {id};
      if |seen| > CAPACITY {
        seen := {};
      }
    }

    method Ack(entry: nat, acks: bool)
      modifies this`pending, this`acked
      ensures Value() == Acked(old(Value()), entry, acks)
    {
      if acks {
        pending := pending - {entry};
        acked := acked + {entry};
      }
    }

    method ProcessEntry(entry: nat, p: Payload, handles: bool, acks: bool)
      modifies this
      ensures Value() == Processed(old(Value()), entry, p, handles, acks)
    {
      match p
      case Malformed =>
        Ack(entry, acks);
      case Event(id) =>
        var duplicate := IsDuplicate(id);
        if duplicate {
          Ack(entry, acks);
          return;
        }
        if !handles {
          return;
        }
        handled := handled + [id];
        MarkSeen(id);
        Ack(entry, acks);
    }
  }
}

/** All interleavings of the read loop, the claim loop, failures, lost replies and crashes. */
module ConsumerRuns {
  import opened StreamConsumers

  datatype Worker = Reader | Claimer

  /** Where a loop stands: the entry it works on, and the rest of its batch. */
  datatype Pc =
    | Waiting(queue: seq<nat>)
    | Handling(entry: nat, queue: seq<nat>)
    | Marking(entry: nat, queue: seq<nat>)
    | Acking(entry: nat, queue: seq<nat>)

  type Mark = (Worker, string)

  /**
   `log[..next]` has been handed to the group. `epoch` lists the marks since the seen set
   was last cleared, `past` the epochs before, both within the life of the process.
   */
  datatype State = State(
    log: seq<Payload>, next: nat, core: Core,
    reader: Pc, claimer: Pc,
    epoch: seq<Mark>, past: seq<seq<Mark>>)
  {
    function PcOf(w: Worker): Pc {
      if w == Reader then reader else claimer
    }

    function With(w: Worker, pc: Pc): State {
      if w == Reader then this.(reader := pc) else this.(claimer := pc)
    }
  }

  const START := State([], 0, Core({}, {}, {}, []), Waiting([]), Waiting([]), [], [])

  datatype Step =
    | Publish(p: Payload)
    | Fetch(n: nat, lost: bool)
    | Claim(ids: seq<nat>, lost: bool)
    | Take(w: Worker)
    | HandlerDone(w: Worker, ok: bool)
    | MarkSeen(w: Worker)
    | AckDone(w: Worker, ok: bool)
    | Crash

  predicate Enabled(s: State, step: Step) {
    match step
    case Publish(_) => true
    case Fetch(n, _) => s.reader == Waiting([]) && s.next + n <= |s.log|
    case Claim(ids, _) => s.claimer == Waiting([]) && forall i <- ids :: i in s.core.pending
    case Take(w) => s.PcOf(w).Waiting? && s.PcOf(w).queue != [] && s.PcOf(w).queue[0] < |s.log|
    case HandlerDone(w, _) => s.PcOf(w).Handling? && s.PcOf(w).entry < |s.log| && s.log[s.PcOf(w).entry].Event?
    case MarkSeen(w) => s.PcOf(w).Marking? && s.PcOf(w).entry < |s.log| && s.log[s.PcOf(w).entry].Event?
    case AckDone(w, _) => s.PcOf(w).Acking?
    case Crash => true
  }

  function Range(from: nat, n: nat): (r: seq<nat>)
    ensures forall i: nat :: i in r <==> from <= i < from + n
  {
    if n == 0 then [] else Range(from, n - 1) + [from + n - 1]
  }

  function Next(s: State, step: Step): State
    requires Enabled(s, step)
  {
    match step
    case Publish(p) => s.(log := s.log + [p])
    case Fetch(n, lost) =>
      s.(next := s.next + n,
         core := s.core.(pending := s.core.pending + set i | i in Range(s.next, n)),
         reader := Waiting(if lost then [] else Range(s.next, n)))
    case Claim(ids, lost) => s.(claimer := Waiting(if lost then [] else ids))
    case Take(w) =>
      var i, rest := s.PcOf(w).queue[0], s.PcOf(w).queue[1..];
      if s.log[i].Malformed? || s.log[i].eventId in s.core.seen then s.With(w, Acking(i, rest))
      else s.With(w, Handling(i, rest))
    case HandlerDone(w, ok) =>
      var pc := s.PcOf(w);
      if ok then
        s.(core := s.core.(handled := s.core.handled + [s.log[pc.entry].eventId])).With(w, Marking(pc.entry, pc.queue))
      else s.With(w, Waiting(pc.queue))
    case MarkSeen(w) =>
      var pc := s.PcOf(w);
      var id := s.log[pc.entry].eventId;
      var marks := s.epoch + [(w, id)];
      var c := Clears(s.core.seen, id);
      s.(core := s.core.(seen := Marked(s.core.seen, id)),
         epoch := if c then [] else marks,
         past := if c then s.past + [marks] else s.past).With(w, Acking(pc.entry, pc.queue))
    case AckDone(w, ok) =>
      var pc := s.PcOf(w);
      s.(core := Acked(s.core, pc.entry, ok)).With(w, Waiting(pc.queue))
    case Crash =>
      s.(core := s.core.(seen := {}), reader := Waiting([]), claimer := Waiting([]), epoch := [], past := [])
  }

  predicate IsRun(steps: seq<Step>)
    decreases |steps|, 0
  {
    steps == [] || (
      && IsRun(steps[..|steps|-1])
      && Enabled(Run(steps[..|steps|-1]), steps[|steps|-1]))
  }

  function Run(steps: seq<Step>): State
    requires IsRun(steps)
    decreases |steps|, 1
  {
    if steps == [] then START else Next(Run(steps[..|steps|-1]), steps[|steps|-1])
  }

  // ------------------------------------------------------------------
  // At least once.
  // ------------------------------------------------------------------

  /** The entry is malformed, or the handler has succeeded for its event id. */
  predicate Settled(s: State, i: nat) {
    i < |s.log| && (s.log[i].Malformed? || s.log[i].eventId in s.core.handled)
  }

  /** A loop acknowledges only what is settled, and works only on entries of the log. */
  ghost predicate LoopOk(s: State, pc: Pc) {
    && (forall i <- pc.queue :: i < s.next)
    && (!pc.Waiting? ==> pc.entry < s.next)
    && (pc.Handling? || pc.Marking? ==> pc.entry < |s.log| && s.log[pc.entry].Event?)
    && (pc.Marking? || pc.Acking? ==> Settled(s, pc.entry))
  }

  ghost predicate GroupOk(s: State) {
    && s.next <= |s.log|
    && (forall i: nat | i < s.next :: i in s.core.pending || i in s.core.acked)
    && (forall i <- s.core.pending :: i < s.next)
    && (forall i <- s.core.acked :: i < s.next && Settled(s, i))
    && s.core.pending !! s.core.acked
    && (forall id <- s.core.seen :: id in s.core.handled)
  }

  ghost predicate Inv(s: State) {
    GroupOk(s) && LoopOk(s, s.reader) && LoopOk(s, s.claimer)
  }

  /** The log and the handled ids only grow, so what is settled stays settled. */
  ghost predicate Grows(s: State, s': State) {
    && |s.log| <= |s'.log| && s.next <= s'.next
    && (forall i | 0 <= i < |s.log| :: s'.log[i] == s.log[i])
    && (forall id <- s.core.handled :: id in s'.core.handled)
  }

  lemma LoopGrows(s: State, s': State, pc: Pc)
    requires Grows(s, s') && LoopOk(s, pc)
    ensures LoopOk(s', pc)
  {
  }

  lemma NextGrows(s: State, step: Step)
    requires Enabled(s, step)
    ensures Grows(s, Next(s, step))
  {
  }

  /** A step leaves the other loop where it was, or both start over. */
  lemma OtherLoop(s: State, step: Step, w: Worker)
    requires Enabled(s, step)
    ensures Next(s, step).PcOf(w) == s.PcOf(w) || Next(s, step).PcOf(w) == Waiting([])
            || (step.Fetch? && w == Reader) || (step.Claim? && w == Claimer)
            || ((step.Take? || step.HandlerDone? || step.MarkSeen? || step.AckDone?) && step.w == w)
  {
  }

  /** Acknowledged entries are settled after every step. */
  lemma AckedNext(s: State, step: Step)
    requires Inv(s) && Enabled(s, step)
    ensures forall i <- Next(s, step).core.acked :: i < Next(s, step).next && Settled(Next(s, step), i)
  {
    NextGrows(s, step);
    var s' := Next(s, step);
    if step.AckDone? {
      assert LoopOk(s, s.PcOf(step.w));
    }
    forall i | i in s'.core.acked ensures i < s'.next && Settled(s', i) {
      if i in s.core.acked {
        assert Settled(s, i);
      }
    }
  }

  /** Seen ids have been handled after every step. */
  lemma SeenHandledNext(s: State, step: Step)
    requires Inv(s) && Enabled(s, step)
    ensures forall id <- Next(s, step).core.seen :: id in Next(s, step).core.handled
  {
    NextGrows(s, step);
    if step.MarkSeen? {
      assert LoopOk(s, s.PcOf(step.w));
    }
  }

  lemma GroupNext(s: State, step: Step)
    requires Inv(s) && Enabled(s, step)
    ensures GroupOk(Next(s, step))
  {
    AckedNext(s, step);
    SeenHandledNext(s, step);
    hide Settled;
    hide LoopOk;
    if step.AckDone? {
      EntryHandedOut(s, step.w);
    }
  }

  lemma EntryHandedOut(s: State, w: Worker)
    requires Inv(s) && s.PcOf(w).Acking?
    ensures s.PcOf(w).entry < s.next
  {
    assert LoopOk(s, s.PcOf(w));
  }

  lemma OwnLoop(s: State, step: Step, w: Worker)
    requires Inv(s) && Enabled(s, step)
    requires (step.Fetch? && w == Reader) || (step.Claim? && w == Claimer)
             || ((step.Take? || step.HandlerDone? || step.MarkSeen? || step.AckDone?) && step.w == w)
    ensures LoopOk(Next(s, step), Next(s, step).PcOf(w))
  {
    var s' := Next(s, step);
    assert LoopOk(s, s.PcOf(w));
    NextGrows(s, step);
    if step.Take? {
      var queue := s.PcOf(w).queue;
      assert queue[0] in queue && forall i <- queue[1..] :: i in queue;
    }
    if step.HandlerDone? && step.ok {
      var id := s.log[s.PcOf(w).entry].eventId;
      assert s'.core.handled[|s.core.handled|] == id;
    }
  }

  lemma InvNext(s: State, step: Step)
    requires Inv(s) && Enabled(s, step)
    ensures Inv(Next(s, step))
  {
    hide GroupOk;
    hide LoopOk;
    hide Grows;
    hide Next;
    GroupNext(s, step);
    NextGrows(s, step);
    LoopNext(s, step, Reader);
    LoopNext(s, step, Claimer);
  }

  lemma LoopNext(s: State, step: Step, w: Worker)
    requires Inv(s) && Enabled(s, step)
    ensures LoopOk(Next(s, step), Next(s, step).PcOf(w))
  {
    hide GroupOk;
    hide Next;
    NextGrows(s, step);
    OtherLoop(s, step, w);
    LoopGrows(s, Next(s, step), s.PcOf(w));
    if Next(s, step).PcOf(w) != s.PcOf(w) && Next(s, step).PcOf(w) != Waiting([]) {
      OwnLoop(s, step, w);
    }
  }

  lemma {:induction false} InvRun(steps: seq<Step>)
    requires IsRun(steps)
    ensures Inv(Run(steps))
  {
    if steps != [] {
      InvRun(steps[..|steps|-1]);
      InvNext(Run(steps[..|steps|-1]), steps[|steps|-1]);
    }
  }

  /**
   At-least-once: in every interleaving, an entry handed to the group is still pending or
   was acknowledged, never both; and an acknowledged entry was malformed or carries an
   event id for which the handler has succeeded.
   */
  lemma AtLeastOnce(steps: seq<Step>, i: nat)
    requires IsRun(steps) && i < Run(steps).next
    ensures var s := Run(steps);
            && i < |s.log|
            && (i in s.core.pending <==> i !in s.core.acked)
            && (i in s.core.acked ==> s.log[i].Malformed? || s.log[i].eventId in s.core.handled)
  {
    InvRun(steps);
    assert Settled(Run(steps), i) || i in Run(steps).core.pending;
  }

  /** No loop is ever stuck on its own account: the next step of its entry can be taken. */
  lemma LoopsCanGoOn(steps: seq<Step>, w: Worker)
    requires IsRun(steps)
    ensures var s := Run(steps);
            match s.PcOf(w)
            case Waiting(queue) => queue != [] ==> Enabled(s, Take(w))
            case Handling(_, _) => Enabled(s, HandlerDone(w, true)) && Enabled(s, HandlerDone(w, false))
            case Marking(_, _) => Enabled(s, MarkSeen(w))
            case Acking(_, _) => Enabled(s, AckDone(w, true)) && Enabled(s, AckDone(w, false))
  {
    InvRun(steps);
    var pc := Run(steps).PcOf(w);
    assert LoopOk(Run(steps), pc);
    assert pc.queue != [] ==> pc.queue[0] in pc.queue;
  }

  /**
   One loop working through an entry while nothing else happens is ProcessEntry: the
   interleavings contain the sequential consumer.
   */
  lemma UninterruptedIsProcessEntry(s: State, w: Worker, handles: bool, acks: bool)
    requires s.PcOf(w).Waiting? && s.PcOf(w).queue != [] && s.PcOf(w).queue[0] < |s.log|
    ensures var i, rest := s.PcOf(w).queue[0], s.PcOf(w).queue[1..];
            var s1 := Next(s, Take(w));
            var s2 := if s1.PcOf(w).Handling? then Next(s1, HandlerDone(w, handles)) else s1;
            var s3 := if s2.PcOf(w).Marking? then Next(s2, MarkSeen(w)) else s2;
            var s4 := if s3.PcOf(w).Acking? then Next(s3, AckDone(w, acks)) else s3;
            && s4.PcOf(w) == Waiting(rest)
            && s4.core == Processed(s.core, i, s.log[i], handles, acks)
  {
  }

  // ------------------------------------------------------------------
  // Deduplication between two clears.
  // ------------------------------------------------------------------

  /** The id that a loop has found unseen and not marked yet. */
  predicate WorksOn(s: State, w: Worker, id: string) {
    var pc := s.PcOf(w);
    (pc.Handling? || pc.Marking?) && pc.entry < |s.log| && s.log[pc.entry] == Event(id)
  }

  ghost predicate Dedup(s: State) {
    && |s.core.seen| <= CAPACITY
    && (forall m <- s.epoch :: m.1 in s.core.seen)
    && (forall m :: multiset(s.epoch)[m] <= 1)
    && (forall e <- s.past :: forall m :: multiset(e)[m] <= 1)
    && (forall w, id | WorksOn(s, w, id) :: (w, id) !in s.epoch)
  }

  lemma OnceMore(marks: seq<Mark>, m: Mark)
    requires m !in marks && forall n :: multiset(marks)[n] <= 1
    ensures forall n :: multiset(marks + [m])[n] <= 1
  {
    assert multiset(marks)[m] == 0;
  }

  /** What a step leaves of a loop's unmarked id. */
  lemma WorksOnBefore(s: State, step: Step, w: Worker, id: string)
    requires Inv(s) && Enabled(s, step) && WorksOn(Next(s, step), w, id)
    ensures step != Crash && step != MarkSeen(w)
    ensures WorksOn(s, w, id) || (step == Take(w) && id !in s.core.seen)
  {
    assert LoopOk(s, s.PcOf(w));
  }

  lemma DedupNext(s: State, step: Step)
    requires Inv(s) && Dedup(s) && Enabled(s, step)
    ensures Dedup(Next(s, step))
  {
    hide WorksOn;
    hide Inv;
    DedupWorks(s, step);
    if step.MarkSeen? {
      DedupMark(s, step.w);
    } else {
      hide Dedup;
      DedupOther(s, step);
    }
  }

  /** A step that is no mark leaves the marks alone, or starts over. */
  lemma DedupOther(s: State, step: Step)
    requires Dedup(s) && Enabled(s, step) && !step.MarkSeen?
    requires forall w, id | WorksOn(Next(s, step), w, id) :: (w, id) !in Next(s, step).epoch
    ensures Dedup(Next(s, step))
  {
    hide WorksOn;
    var s' := Next(s, step);
    assert !step.Crash? ==> s'.epoch == s.epoch && s'.past == s.past && s'.core.seen == s.core.seen;
    assert step.Crash? ==> s'.epoch == [] && s'.past == [] && s'.core.seen == {};
    hide Next;
  }

  /** An id in the hands of a loop is not among its marks. */
  lemma DedupWorks(s: State, step: Step)
    requires Inv(s) && Dedup(s) && Enabled(s, step)
    ensures forall w, id | WorksOn(Next(s, step), w, id) :: (w, id) !in Next(s, step).epoch
  {
    var s' := Next(s, step);
    forall w, id | WorksOn(s', w, id) ensures (w, id) !in s'.epoch {
      WorksOnBefore(s, step, w, id);
      EpochNext(s, step);
    }
  }

  /** The epoch grows by the mark of the step, or starts over. */
  lemma EpochNext(s: State, step: Step)
    requires Enabled(s, step)
    ensures forall m <- Next(s, step).epoch :: m in s.epoch || step == MarkSeen(m.0)
  {
  }

  lemma DedupMark(s: State, w: Worker)
    requires Inv(s) && Dedup(s) && Enabled(s, MarkSeen(w))
    ensures var s' := Next(s, MarkSeen(w));
            && (forall m <- s'.epoch :: m.1 in s'.core.seen)
            && (forall m :: multiset(s'.epoch)[m] <= 1)
            && (forall e <- s'.past :: forall m :: multiset(e)[m] <= 1)
  {
    var id := s.log[s.PcOf(w).entry].eventId;
    assert WorksOn(s, w, id);
    OnceMore(s.epoch, (w, id));
  }

  lemma {:induction false} DedupRun(steps: seq<Step>)
    requires IsRun(steps)
    ensures Dedup(Run(steps))
  {
    if steps != [] {
      DedupRun(steps[..|steps|-1]);
      InvRun(steps[..|steps|-1]);
      DedupNext(Run(steps[..|steps|-1]), steps[|steps|-1]);
    }
  }

  /**
   In every interleaving the seen set holds at most 10000 ids, and between two clears of
   it each loop marks an event id at most once.
   */
  lemma MarkedOncePerLoop(steps: seq<Step>, w: Worker, id: string)
    requires IsRun(steps)
    ensures var s := Run(steps);
            && |s.core.seen| <= 10000
            && multiset(s.epoch)[(w, id)] <= 1
            && forall k | 0 <= k < |s.past| :: multiset(s.past[k])[(w, id)] <= 1
  {
    DedupRun(steps);
    var s := Run(steps);
    assert forall k | 0 <= k < |s.past| :: s.past[k] in s.past;
  }

  lemma SeenNext(s: State, step: Step, id: string)
    requires Enabled(s, step)
    requires id in s.core.seen <==> exists m <- s.epoch :: m.1 == id
    ensures id in Next(s, step).core.seen <==> exists m <- Next(s, step).epoch :: m.1 == id
  {
    if step.MarkSeen? {
      var m := (step.w, s.log[s.PcOf(step.w).entry].eventId);
      var marks := s.epoch + [m];
      assert m in marks && forall n <- s.epoch :: n in marks;
    }
  }

  /** In every run the set holds exactly the ids that either loop marked since the last clear. */
  lemma {:induction false} SeenSinceLastClear(steps: seq<Step>, id: string)
    requires IsRun(steps)
    ensures id in Run(steps).core.seen <==> exists m <- Run(steps).epoch :: m.1 == id
  {
    if steps != [] {
      var init := steps[..|steps|-1];
      SeenSinceLastClear(init, id);
      SeenNext(Run(init), steps[|steps|-1], id);
    }
  }

  // ------------------------------------------------------------------
  // Accounting when entries are processed one at a time.
  // ------------------------------------------------------------------

  /** One process life in which the two loops never work on entries at the same time. */
  ghost predicate OneAtATime(steps: seq<Step>)
    requires IsRun(steps)
  {
    steps == [] || (
      && OneAtATime(steps[..|steps|-1])
      && !steps[|steps|-1].Crash?
      && (Run(steps).reader.Waiting? || Run(steps).claimer.Waiting?))
  }

  function Ids(marks: seq<Mark>): (ids: seq<string>)
    ensures |ids| == |marks|
    ensures forall i | 0 <= i < |marks| :: ids[i] == marks[i].1
  {
    if marks == [] then [] else Ids(marks[..|marks|-1]) + [marks[|marks|-1].1]
  }

  /** The event ids of the finished epochs, one after the other. */
  function PastIds(past: seq<seq<Mark>>): seq<string> {
    if past == [] then [] else PastIds(past[..|past|-1]) + Ids(past[|past|-1])
  }

  /** The id handled but not yet marked. */
  function InFlight(s: State): seq<string> {
    if s.reader.Marking? && s.reader.entry < |s.log| && s.log[s.reader.entry].Event?
    then [s.log[s.reader.entry].eventId]
    else if s.claimer.Marking? && s.claimer.entry < |s.log| && s.log[s.claimer.entry].Event?
    then [s.log[s.claimer.entry].eventId]
    else []
  }

  predicate AllDifferent(ids: seq<string>) {
    forall i, j | 0 <= i < j < |ids| :: ids[i] != ids[j]
  }

  /** Finished epochs are full and repeat no id; the present one repeats no id and has `size` marks. */
  ghost predicate Ledger(past: seq<seq<Mark>>, epoch: seq<Mark>, size: nat) {
    && |epoch| == size
    && AllDifferent(Ids(epoch))
    && (forall k | 0 <= k < |past| :: |past[k]| == CAPACITY + 1 && AllDifferent(Ids(past[k])))
  }

  /** Every success is on the books: the finished epochs, the present one of `size` marks, and the one in flight. */
  ghost predicate Books(
    handled: seq<string>, past: seq<seq<Mark>>, epoch: seq<Mark>, flight: seq<string>, size: nat)
  {
    handled == PastIds(past) + Ids(epoch) + flight && Ledger(past, epoch, size)
  }

  ghost predicate Booked(s: State) {
    Books(s.core.handled, s.past, s.epoch, InFlight(s), |s.core.seen|) && Unseen(s)
  }

  ghost predicate Unseen(s: State) {
    forall w, id | WorksOn(s, w, id) :: id !in s.core.seen
  }

  ghost predicate Alone(s: State) {
    s.reader.Waiting? || s.claimer.Waiting?
  }

  lemma LedgerAdd(past: seq<seq<Mark>>, epoch: seq<Mark>, size: nat, m: Mark)
    requires Ledger(past, epoch, size) && m.1 !in Ids(epoch)
    ensures Ids(epoch + [m]) == Ids(epoch) + [m.1]
    ensures Ledger(past, epoch + [m], size + 1)
  {
    assert (epoch + [m])[..|epoch|] == epoch;
  }

  lemma LedgerTurn(past: seq<seq<Mark>>, epoch: seq<Mark>)
    requires Ledger(past, epoch, CAPACITY + 1)
    ensures PastIds(past + [epoch]) == PastIds(past) + Ids(epoch)
    ensures Ledger(past + [epoch], [], 0)
  {
    assert (past + [epoch])[..|past|] == past;
  }

  /** The id about to be marked is the one in flight, and new. */
  lemma MarkingIsInFlight(s: State, w: Worker)
    requires Inv(s) && Dedup(s) && Unseen(s) && Alone(s) && Enabled(s, MarkSeen(w))
    ensures var id := s.log[s.PcOf(w).entry].eventId;
            InFlight(s) == [id] && InFlight(Next(s, MarkSeen(w))) == [] && id !in s.core.seen && id !in Ids(s.epoch)
  {
    var id := s.log[s.PcOf(w).entry].eventId;
    assert WorksOn(s, w, id);
    assert forall i | 0 <= i < |s.epoch| :: s.epoch[i] in s.epoch;
  }

  lemma UnseenMark(s: State, w: Worker)
    requires Alone(s) && Enabled(s, MarkSeen(w))
    ensures Unseen(Next(s, MarkSeen(w)))
  {
  }

  /** What a mark does to the books: it closes a full epoch, or adds to the present one. */
  lemma MarkEffect(s: State, w: Worker)
    requires Enabled(s, MarkSeen(w)) && |s.core.seen| <= CAPACITY
    ensures var s', id := Next(s, MarkSeen(w)), s.log[s.PcOf(w).entry].eventId;
            && s'.core.handled == s.core.handled
            && (id !in s.core.seen && |s.core.seen| == CAPACITY ==>
                  s'.core.seen == {} && s'.epoch == [] && s'.past == s.past + [s.epoch + [(w, id)]])
            && (id !in s.core.seen && |s.core.seen| < CAPACITY ==>
                  |s'.core.seen| == |s.core.seen| + 1 && s'.epoch == s.epoch + [(w, id)] && s'.past == s.past)
  {
  }

  lemma Regroup(all: seq<string>, a: seq<string>, b: seq<string>, c: seq<string>)
    requires all == a + b + c
    ensures all == a + (b + c) + []
    ensures all == a + (b + c) + [] + []
  {
  }

  /** Marking the success in flight adds it to the present epoch. */
  lemma BooksAdd(handled: seq<string>, past: seq<seq<Mark>>, epoch: seq<Mark>, size: nat, m: Mark)
    requires Books(handled, past, epoch, [m.1], size) && m.1 !in Ids(epoch)
    ensures Books(handled, past, epoch + [m], [], size + 1)
  {
    hide Ledger;
    hide PastIds;
    hide Ids;
    LedgerAdd(past, epoch, size, m);
    Regroup(handled, PastIds(past), Ids(epoch), [m.1]);
  }

  /** A full epoch is finished, and a new one begins. */
  lemma BooksTurn(handled: seq<string>, past: seq<seq<Mark>>, epoch: seq<Mark>)
    requires Books(handled, past, epoch, [], CAPACITY + 1)
    ensures Books(handled, past + [epoch], [], [], 0)
  {
    hide Ledger;
    hide PastIds;
    hide Ids;
    LedgerTurn(past, epoch);
    NoIds();
  }

  /** The mark that adds to the present epoch. */
  lemma BookedAdd(s: State, w: Worker)
    requires Inv(s) && Dedup(s) && Booked(s) && Alone(s) && Enabled(s, MarkSeen(w)) && |s.core.seen| < CAPACITY
    ensures Booked(Next(s, MarkSeen(w)))
  {
    hide Next;
    hide Books;
    hide InFlight;
    hide Unseen;
    hide Inv;
    hide Dedup;
    hide Ids;
    MarkingIsInFlight(s, w);
    UnseenMark(s, w);
    MarkEffect(s, w);
    BooksAdd(s.core.handled, s.past, s.epoch, |s.core.seen|, (w, s.log[s.PcOf(w).entry].eventId));
  }

  /** The mark that fills the epoch and clears the set. */
  lemma BookedTurn(s: State, w: Worker)
    requires Inv(s) && Dedup(s) && Booked(s) && Alone(s) && Enabled(s, MarkSeen(w)) && |s.core.seen| == CAPACITY
    ensures Booked(Next(s, MarkSeen(w)))
  {
    hide Next;
    hide Books;
    hide InFlight;
    hide Unseen;
    hide Inv;
    hide Dedup;
    hide Ids;
    var m := (w, s.log[s.PcOf(w).entry].eventId);
    MarkingIsInFlight(s, w);
    UnseenMark(s, w);
    MarkEffect(s, w);
    BooksAdd(s.core.handled, s.past, s.epoch, CAPACITY, m);
    BooksTurn(s.core.handled, s.past, s.epoch + [m]);
  }

  lemma BookedMark(s: State, w: Worker)
    requires Inv(s) && Dedup(s) && Booked(s) && Alone(s) && Enabled(s, MarkSeen(w))
    ensures Booked(Next(s, MarkSeen(w)))
  {
    SeenBounded(s);
    hide Next;
    hide Enabled;
    hide Booked;
    hide Inv;
    hide Dedup;
    if |s.core.seen| < CAPACITY {
      BookedAdd(s, w);
    } else {
      BookedTurn(s, w);
    }
  }

  lemma SeenBounded(s: State)
    requires Dedup(s)
    ensures |s.core.seen| <= CAPACITY
  {
  }

  lemma NoIds()
    ensures Ids([]) == []
  {
  }

  /** A step that is no mark moves the books only by the success it reports. */
  lemma FlightOf(s: State, step: Step)
    requires Inv(s) && Alone(s) && Enabled(s, step) && !step.MarkSeen? && !step.Crash?
    ensures var s' := Next(s, step);
            s'.core.handled == s.core.handled + (if step.HandlerDone? && step.ok then InFlight(s') else [])
    ensures step.HandlerDone? ==> InFlight(s) == [] && (!step.ok ==> InFlight(Next(s, step)) == [])
    ensures !step.HandlerDone? ==> InFlight(Next(s, step)) == InFlight(s)
  {
    assert LoopOk(s, s.reader) && LoopOk(s, s.claimer);
  }

  lemma BookedOther(s: State, step: Step)
    requires Inv(s) && Booked(s) && Alone(s) && Enabled(s, step)
    requires !step.MarkSeen? && !step.Crash?
    ensures Booked(Next(s, step))
  {
    hide Ledger;
    hide InFlight;
    hide PastIds;
    hide Ids;
    FlightOf(s, step);
    var s' := Next(s, step);
    assert s'.past == s.past && s'.epoch == s.epoch && s'.core.seen == s.core.seen;
    forall v, i | WorksOn(s', v, i) ensures i !in s'.core.seen {
      WorksOnBefore(s, step, v, i);
    }
  }

  lemma {:induction false} BookedRun(steps: seq<Step>)
    requires IsRun(steps) && OneAtATime(steps)
    ensures Booked(Run(steps)) && Alone(Run(steps))
  {
    if steps != [] {
      var init, last := steps[..|steps|-1], steps[|steps|-1];
      BookedRun(init);
      InvRun(init);
      DedupRun(init);
      hide Booked;
      hide Inv;
      hide Dedup;
      hide Next;
      if last.MarkSeen? {
        BookedMark(Run(init), last.w);
      } else {
        BookedOther(Run(init), last);
      }
    }
  }

  lemma {:induction false} PastLength(past: seq<seq<Mark>>)
    requires forall k | 0 <= k < |past| :: |past[k]| == CAPACITY + 1
    ensures |PastIds(past)| == (CAPACITY + 1) * |past|
  {
    if past != [] {
      PastLength(past[..|past|-1]);
    }
  }

  lemma {:induction false} DifferentCount(ids: seq<string>, id: string)
    requires AllDifferent(ids)
    ensures multiset(ids)[id] <= 1
  {
    if ids != [] {
      var init, last := ids[..|ids|-1], ids[|ids|-1];
      DifferentCount(init, id);
      assert ids == init + [last];
      assert last !in init;
    }
  }

  lemma {:induction false} PastCount(past: seq<seq<Mark>>, id: string)
    requires forall k | 0 <= k < |past| :: AllDifferent(Ids(past[k]))
    ensures multiset(PastIds(past))[id] <= |past|
  {
    if past != [] {
      PastCount(past[..|past|-1], id);
      DifferentCount(Ids(past[|past|-1]), id);
    }
  }

  /**
   When entries are processed one at a time, the handler's successes that have been marked
   number exactly 10001 for every clear of the seen set plus the size of the set, and no
   event id is handled successfully more often than the set was cleared, plus once.
   */
  lemma SuccessesAccounted(steps: seq<Step>, id: string)
    requires IsRun(steps) && OneAtATime(steps)
    ensures var s := Run(steps);
            && |s.core.handled| - |InFlight(s)| == 10001 * |s.past| + |s.core.seen|
            && multiset(s.core.handled)[id] <= |s.past| + 1
  {
    BookedRun(steps);
    DedupRun(steps);
    var s := Run(steps);
    PastLength(s.past);
    PastCount(s.past, id);
    InFlightIsNew(s, id);
  }

  lemma InFlightIsNew(s: State, id: string)
    requires Booked(s) && Dedup(s)
    ensures multiset(Ids(s.epoch) + InFlight(s))[id] <= 1
    ensures multiset(s.core.handled)[id] == multiset(PastIds(s.past))[id] + multiset(Ids(s.epoch) + InFlight(s))[id]
  {
    hide Ids;
    hide PastIds;
    hide InFlight;
    hide Ledger;
    hide Dedup;
    hide Unseen;
    hide AllDifferent;
    var now := Ids(s.epoch) + InFlight(s);
    assert s.core.handled == PastIds(s.past) + now;
    NowDifferent(s);
    DifferentCount(now, id);
  }

  lemma NowDifferent(s: State)
    requires Booked(s) && Dedup(s)
    ensures AllDifferent(Ids(s.epoch) + InFlight(s))
  {
    hide PastIds;
    var ids := Ids(s.epoch);
    assert forall i | 0 <= i < |s.epoch| :: s.epoch[i] in s.epoch;
    if InFlight(s) != [] {
      var id := InFlight(s)[0];
      assert WorksOn(s, Reader, id) || WorksOn(s, Claimer, id);
      assert InFlight(s) == [id] && id !in ids;
    }
  }
}
