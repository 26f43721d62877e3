/** The audit queue: events are recorded while one drain task writes them to the database, one insert at a time. */
module Audits {
  datatype Event = Event(kind: string, source: string, seqNo: int, payload: string)

  /** `inFlight` maps each drain task waiting for its insert to the event it inserts; `inserted` is the database
      table, `reported` the number of drops reported, `removed` the events dropped, `recorded` all calls so far. */
  datatype State = State(
    queue: seq<Event>, draining: bool, inFlight: map<nat, Event>,
    inserted: seq<Event>, reported: int, removed: seq<Event>, recorded: seq<Event>)

  const START := State([], false, map[], [], 0, [], [])

  /** The steps between two waits; a step naming a task that does not wait does nothing. */
  datatype Step =
    | Record(ev: Event)
    | StartDrain(task: nat)
    | InsertOk(task: nat)
    | InsertFail(task: nat)

  predicate Overflows(s: State, bufferMax: int) {
    |s.queue| >= bufferMax
  }

  function DropCount(s: State, bufferMax: int): int {
    |s.queue| - bufferMax + 1
  }

  /** How many events a cut of `drop` really takes: no more than there are. */
  function Taken(s: State, drop: int): (n: nat)
    requires drop >= 0
    ensures n <= |s.queue|
  {
    if drop > |s.queue| then |s.queue| else drop
  }

  function AfterRecord(s: State, bufferMax: int, ev: Event): State {
    var noted := s.(recorded := s.recorded + [ev]);
    if Overflows(s, bufferMax) then
      var drop := DropCount(s, bufferMax);
      noted.(queue := s.queue[Taken(s, drop)..] + [ev], reported := s.reported + drop,
             removed := s.removed + s.queue[..Taken(s, drop)])
    else noted.(queue := s.queue + [ev])
  }

  function Shift(queue: seq<Event>): seq<Event> {
    if queue == [] then [] else queue[1..]
  }

  /** The drain loop's head: take the first event in flight, or finish. */
  function LoopHead(s: State, task: nat): State {
    if s.queue == [] then s.(draining := false, inFlight := s.inFlight - {task})
    else s.(inFlight := s.inFlight[task := s.queue[0]])
  }

  function Apply(s: State, bufferMax: int, step: Step): State {
    match step
    case Record(ev) => AfterRecord(s, bufferMax, ev)
    case StartDrain(task) => if s.draining then s else LoopHead(s.(draining := true), task)
    case InsertOk(task) =>
      if task !in s.inFlight then s
      else LoopHead(s.(inserted := s.inserted + [s.inFlight[task]], queue := Shift(s.queue)), task)
    case InsertFail(task) =>
      if task !in s.inFlight then s
      else s.(draining := false, inFlight := s.inFlight - {task})
  }

  function Run(bufferMax: int, steps: seq<Step>): State {
    if steps == [] then START
    else Apply(Run(bufferMax, steps[..|steps| - 1]), bufferMax, steps[|steps| - 1])
  }

  // ------------------------------------------------------------ one drain, a bounded queue

  /** At most one task waits, exactly while the flag is up, and something is queued as long as it does. */
  ghost predicate OneDrain(s: State) {
    && (s.draining <==> s.inFlight != map[])
    && (forall a: nat, b: nat | a in s.inFlight && b in s.inFlight :: a == b)
    && (s.draining ==> s.queue != [])
  }

  lemma NoneWaiting(s: State, task: nat)
    requires OneDrain(s) && task in s.inFlight
    ensures s.inFlight - {task} == map[] && s.inFlight == map[task := s.inFlight[task]] && s.draining
  {
    assert forall b: nat | b in s.inFlight :: b == task;
  }

  lemma LoopHeadOneDrain(s: State, task: nat)
    requires s.draining && forall b: nat | b in s.inFlight :: b == task
    ensures OneDrain(LoopHead(s, task))
  {
    if s.queue != [] { assert task in LoopHead(s, task).inFlight; }
    else { assert LoopHead(s, task).inFlight == map[]; }
  }

  lemma StepOneDrain(s: State, bufferMax: int, step: Step)
    requires OneDrain(s)
    ensures OneDrain(Apply(s, bufferMax, step))
  {
    match step
    case Record(ev) =>
    case StartDrain(task) => if !s.draining { LoopHeadOneDrain(s.(draining := true), task); }
    case InsertOk(task) =>
      if task in s.inFlight {
        NoneWaiting(s, task);
        LoopHeadOneDrain(s.(inserted := s.inserted + [s.inFlight[task]], queue := Shift(s.queue)), task);
      }
    case InsertFail(task) => if task in s.inFlight { NoneWaiting(s, task); }
  }

  /** However the steps interleave: at most one drain is active. */
  lemma {:induction false} AlwaysOneDrain(bufferMax: int, steps: seq<Step>)
    ensures OneDrain(Run(bufferMax, steps))
  {
    if steps != [] {
      AlwaysOneDrain(bufferMax, steps[..|steps| - 1]);
      StepOneDrain(Run(bufferMax, steps[..|steps| - 1]), bufferMax, steps[|steps| - 1]);
    }
  }

  /** What a record over-reports: nothing as long as the queue may hold an event. */
  function Excess(bufferMax: int): nat {
    if bufferMax >= 1 then 0 else 1 - bufferMax
  }

  ghost predicate Counted(s: State, bufferMax: int) {
    && |s.inserted| + s.reported + |s.queue| == |s.recorded| + |s.recorded| * Excess(bufferMax)
    && (bufferMax >= 1 ==> |s.queue| <= bufferMax)
  }

  lemma StepCounts(s: State, bufferMax: int, step: Step)
    requires OneDrain(s) && Counted(s, bufferMax)
    ensures Counted(Apply(s, bufferMax, step), bufferMax)
  {
    if step.Record? {
      var n, e := |s.recorded|, Excess(bufferMax);
      assert (n + 1) * e == n * e + e;
    }
  }

  /** For every interleaving the counts add up: recorded = inserted + reported drops + queued, and the queue stays
      within its bound, if that bound is at least one. A smaller bound over-reports by `Excess` for every event. */
  lemma {:induction false} CountsAddUp(bufferMax: int, steps: seq<Step>)
    ensures Counted(Run(bufferMax, steps), bufferMax)
  {
    if steps != [] {
      CountsAddUp(bufferMax, steps[..|steps| - 1]);
      AlwaysOneDrain(bufferMax, steps[..|steps| - 1]);
      StepCounts(Run(bufferMax, steps[..|steps| - 1]), bufferMax, steps[|steps| - 1]);
    }
  }

  /** The plain form, and exactly when it holds. */
  lemma CountsAddUpIff(bufferMax: int, steps: seq<Step>)
    ensures var s := Run(bufferMax, steps);
      |s.recorded| == |s.inserted| + s.reported + |s.queue| <==> bufferMax >= 1 || s.recorded == []
  {
    CountsAddUp(bufferMax, steps);
    ZeroProduct(|Run(bufferMax, steps).recorded|, Excess(bufferMax));
  }

  lemma ZeroProduct(n: nat, e: nat)
    ensures n * e == 0 <==> n == 0 || e == 0
  {
    if n > 0 && e > 0 { assert n * e >= e; }
  }

  // ------------------------------------------------------------ order and completeness

  /** The event in flight is the one at the head of the queue. */
  ghost predicate HeadInFlight(s: State) {
    forall t: nat | t in s.inFlight :: s.queue != [] && s.inFlight[t] == s.queue[0]
  }

  /** As long as no drop was reported, the table and the queue together are the recorded sequence. */
  ghost predicate Orderly(s: State) {
    && s.reported >= 0
    && (s.reported == 0 ==> HeadInFlight(s) && s.inserted + s.queue == s.recorded)
  }

  lemma StepOrderly(s: State, bufferMax: int, step: Step)
    requires bufferMax >= 1 && OneDrain(s) && Orderly(s)
    ensures Orderly(Apply(s, bufferMax, step))
  {
    var r := Apply(s, bufferMax, step);
    match step
    case Record(ev) =>
      assert s.inserted + (s.queue + [ev]) == s.inserted + s.queue + [ev];
    case StartDrain(task) =>
    case InsertOk(task) =>
      if task in s.inFlight && s.reported == 0 {
        NoneWaiting(s, task);
        assert s.queue == [s.queue[0]] + s.queue[1..];
        assert s.inserted + [s.queue[0]] + s.queue[1..] == s.inserted + s.queue;
      }
    case InsertFail(task) =>
      if task in s.inFlight { NoneWaiting(s, task); }
  }

  lemma {:induction false} AlwaysOrderly(bufferMax: int, steps: seq<Step>)
    requires bufferMax >= 1
    ensures Orderly(Run(bufferMax, steps))
  {
    if steps != [] {
      AlwaysOrderly(bufferMax, steps[..|steps| - 1]);
      AlwaysOneDrain(bufferMax, steps[..|steps| - 1]);
      StepOrderly(Run(bufferMax, steps[..|steps| - 1]), bufferMax, steps[|steps| - 1]);
    }
  }

  /** Table and queue together are exactly the recorded sequence, in order, if and only if no drop was ever reported. */
  lemma InOrderIffNoDrop(bufferMax: int, steps: seq<Step>)
    requires bufferMax >= 1
    ensures var s := Run(bufferMax, steps); s.inserted + s.queue == s.recorded <==> s.reported == 0
  {
    AlwaysOrderly(bufferMax, steps);
    CountsAddUp(bufferMax, steps);
  }

  /** Every recorded event is in the table, in the queue or among the dropped ones, as often as it was recorded. */
  ghost predicate Accounted(s: State) {
    multiset(s.recorded) == multiset(s.inserted) + multiset(s.removed) + multiset(s.queue)
  }

  /** A finished insert keeps every event accounted for exactly when its event is still at the head of the queue. */
  lemma InsertAccountsIff(s: State, bufferMax: int, task: nat)
    requires OneDrain(s) && Accounted(s) && task in s.inFlight
    ensures Accounted(Apply(s, bufferMax, InsertOk(task))) <==> s.queue[0] == s.inFlight[task]
  {
    NoneWaiting(s, task);
    var r := Apply(s, bufferMax, InsertOk(task));
    assert s.queue == [s.queue[0]] + s.queue[1..];
    assert r.queue == s.queue[1..] && r.inserted == s.inserted + [s.inFlight[task]];
    assert multiset(s.queue) == multiset{s.queue[0]} + multiset(r.queue);
    assert multiset(r.inserted) == multiset(s.inserted) + multiset{s.inFlight[task]};
    if s.queue[0] != s.inFlight[task] {
      var x := s.queue[0];
      assert (multiset(r.inserted) + multiset(r.removed) + multiset(r.queue))[x] + 1 == multiset(s.recorded)[x];
    }
  }

  /** No record overflows while an insert is in flight. */
  ghost predicate QuietOverflow(bufferMax: int, steps: seq<Step>) {
    forall k | 0 <= k < |steps| && steps[k].Record? :: QuietAt(Run(bufferMax, steps[..k]), bufferMax)
  }

  predicate QuietAt(s: State, bufferMax: int) {
    Overflows(s, bufferMax) ==> !s.draining
  }

  lemma RecordAccounts(s: State, bufferMax: int, ev: Event)
    requires Accounted(s)
    ensures Accounted(AfterRecord(s, bufferMax, ev))
  {
    var r := AfterRecord(s, bufferMax, ev);
    if Overflows(s, bufferMax) {
      var n := Taken(s, DropCount(s, bufferMax));
      assert s.queue == s.queue[..n] + s.queue[n..];
    }
  }

  lemma RecordKeepsHead(s: State, bufferMax: int, ev: Event)
    requires OneDrain(s) && HeadInFlight(s) && QuietAt(s, bufferMax)
    ensures HeadInFlight(AfterRecord(s, bufferMax, ev))
  {
  }

  /** If overflow never meets an insert in flight, no event is ever lost unseen, whatever inserts fail. */
  lemma {:induction false} NothingLostQuietly(bufferMax: int, steps: seq<Step>)
    requires QuietOverflow(bufferMax, steps)
    ensures Accounted(Run(bufferMax, steps)) && HeadInFlight(Run(bufferMax, steps))
  {
    if steps != [] {
      var n := |steps| - 1;
      var s := Run(bufferMax, steps[..n]);
      assert QuietOverflow(bufferMax, steps[..n]) by {
        forall k | 0 <= k < n && steps[..n][k].Record? ensures QuietAt(Run(bufferMax, steps[..n][..k]), bufferMax) {
          assert steps[..n][..k] == steps[..k];
        }
      }
      NothingLostQuietly(bufferMax, steps[..n]);
      AlwaysOneDrain(bufferMax, steps[..n]);
      StepAccounts(s, bufferMax, steps[n]);
    }
  }

  lemma StepAccounts(s: State, bufferMax: int, step: Step)
    requires OneDrain(s) && HeadInFlight(s) && Accounted(s) && (step.Record? ==> QuietAt(s, bufferMax))
    ensures Accounted(Apply(s, bufferMax, step)) && HeadInFlight(Apply(s, bufferMax, step))
  {
    match step
    case Record(ev) =>
      RecordAccounts(s, bufferMax, ev);
      RecordKeepsHead(s, bufferMax, ev);
    case StartDrain(task) =>
    case InsertOk(task) =>
      if task in s.inFlight {
        NoneWaiting(s, task);
        InsertAccountsIff(s, bufferMax, task);
      }
    case InsertFail(task) =>
      if task in s.inFlight { NoneWaiting(s, task); }
  }

  // ---- the exact condition over runs

  /** A finished insert finds its event at the head of the queue. */
  ghost predicate HitsHead(s: State, step: Step) {
    step.InsertOk? && step.task in s.inFlight ==> s.queue != [] && s.queue[0] == s.inFlight[step.task]
  }

  ghost predicate AllHitHead(bufferMax: int, steps: seq<Step>) {
    steps == [] ||
    (AllHitHead(bufferMax, steps[..|steps| - 1]) && HitsHead(Run(bufferMax, steps[..|steps| - 1]), steps[|steps| - 1]))
  }

  /** The event in flight is at the head of the queue, or was dropped. */
  ghost predicate HeadOrDropped(s: State) {
    forall t: nat | t in s.inFlight :: (s.queue != [] && s.inFlight[t] == s.queue[0]) || s.inFlight[t] in s.removed
  }

  lemma StepHeadOrDropped(s: State, bufferMax: int, step: Step)
    requires OneDrain(s) && HeadOrDropped(s)
    ensures HeadOrDropped(Apply(s, bufferMax, step))
  {
    match step
    case Record(ev) => RecordHeadOrDropped(s, bufferMax, ev);
    case StartDrain(task) =>
    case InsertOk(task) => if task in s.inFlight { NoneWaiting(s, task); }
    case InsertFail(task) => if task in s.inFlight { NoneWaiting(s, task); }
  }

  lemma RecordHeadOrDropped(s: State, bufferMax: int, ev: Event)
    requires OneDrain(s) && HeadOrDropped(s)
    ensures HeadOrDropped(AfterRecord(s, bufferMax, ev))
  {
    var r := AfterRecord(s, bufferMax, ev);
    if s.inFlight != map[] && Overflows(s, bufferMax) {
      assert s.queue[..Taken(s, DropCount(s, bufferMax))][0] == s.queue[0];
      assert s.queue[0] in r.removed;
    }
  }

  lemma {:induction false} AlwaysHeadOrDropped(bufferMax: int, steps: seq<Step>)
    ensures HeadOrDropped(Run(bufferMax, steps))
  {
    if steps != [] {
      AlwaysHeadOrDropped(bufferMax, steps[..|steps| - 1]);
      AlwaysOneDrain(bufferMax, steps[..|steps| - 1]);
      StepHeadOrDropped(Run(bufferMax, steps[..|steps| - 1]), bufferMax, steps[|steps| - 1]);
    }
  }

  /** Some event is counted twice, as inserted or dropped. */
  ghost predicate Doubled(s: State) {
    exists e :: multiset(s.inserted)[e] + multiset(s.removed)[e] >= 2
  }

  /** What is inserted or dropped stays so. */
  lemma StepOnlyAdds(s: State, bufferMax: int, step: Step, e: Event)
    ensures var r := Apply(s, bufferMax, step);
      multiset(r.inserted)[e] >= multiset(s.inserted)[e] && multiset(r.removed)[e] >= multiset(s.removed)[e]
  {
  }

  /** An insert that misses the head is of a dropped event. */
  lemma MissDoubles(s: State, bufferMax: int, step: Step)
    requires HeadOrDropped(s) && !HitsHead(s, step)
    ensures Doubled(Apply(s, bufferMax, step))
  {
    var e, r := s.inFlight[step.task], Apply(s, bufferMax, step);
    assert r.inserted == s.inserted + [e] && r.removed == s.removed;
    assert multiset(r.inserted) == multiset(s.inserted) + multiset{e};
    assert multiset(s.removed)[e] >= 1;
  }

  lemma {:induction false} MissedIsDoubled(bufferMax: int, steps: seq<Step>)
    requires !AllHitHead(bufferMax, steps)
    ensures Doubled(Run(bufferMax, steps))
  {
    var n := |steps| - 1;
    var s := Run(bufferMax, steps[..n]);
    if AllHitHead(bufferMax, steps[..n]) {
      AlwaysHeadOrDropped(bufferMax, steps[..n]);
      MissDoubles(s, bufferMax, steps[n]);
    } else {
      MissedIsDoubled(bufferMax, steps[..n]);
      var e :| multiset(s.inserted)[e] + multiset(s.removed)[e] >= 2;
      StepOnlyAdds(s, bufferMax, steps[n], e);
    }
  }

  lemma {:induction false} HitsAccount(bufferMax: int, steps: seq<Step>)
    requires AllHitHead(bufferMax, steps)
    ensures Accounted(Run(bufferMax, steps))
  {
    if steps != [] {
      var n := |steps| - 1;
      var s := Run(bufferMax, steps[..n]);
      HitsAccount(bufferMax, steps[..n]);
      AlwaysOneDrain(bufferMax, steps[..n]);
      match steps[n]
      case Record(ev) => RecordAccounts(s, bufferMax, ev);
      case StartDrain(task) =>
      case InsertOk(task) => if task in s.inFlight { InsertAccountsIff(s, bufferMax, task); }
      case InsertFail(task) =>
    }
  }

  ghost predicate AllDifferent(events: seq<Event>) {
    forall i, j | 0 <= i < j < |events| :: events[i] != events[j]
  }

  lemma {:induction false} DifferentOnce(events: seq<Event>, e: Event)
    requires AllDifferent(events)
    ensures multiset(events)[e] <= 1
  {
    if events != [] {
      var n := |events| - 1;
      DifferentOnce(events[..n], e);
      assert events == events[..n] + [events[n]];
      if e == events[n] { assert e !in events[..n]; }
    }
  }

  /** Over every run that records different events: each is in the table, in the queue or among the dropped ones, and
      none twice, exactly if every finished insert found its event at the head of the queue. */
  lemma NothingLostIff(bufferMax: int, steps: seq<Step>)
    requires AllDifferent(Run(bufferMax, steps).recorded)
    ensures Accounted(Run(bufferMax, steps)) <==> AllHitHead(bufferMax, steps)
  {
    var s := Run(bufferMax, steps);
    if AllHitHead(bufferMax, steps) {
      HitsAccount(bufferMax, steps);
    } else {
      MissedIsDoubled(bufferMax, steps);
      var e :| multiset(s.inserted)[e] + multiset(s.removed)[e] >= 2;
      DifferentOnce(s.recorded, e);
      assert (multiset(s.inserted) + multiset(s.removed) + multiset(s.queue))[e] >= 2;
    }
  }

  /** A witness that overflow in flight can lose one: the dropped event is inserted after all, and another one vanishes
      from the queue without being inserted or reported. */
  lemma OverflowInFlightLosesAnEvent(a: Event, b: Event)
    requires a != b
    ensures var s := Run(1, [Record(a), StartDrain(0), Record(b), InsertOk(0)]);
      && s.recorded == [a, b] && s.inserted == [a] && s.removed == [a] && s.queue == [] && s.reported == 1
  {
    var steps := [Record(a), StartDrain(0), Record(b), InsertOk(0)];
    assert steps[..3][..2] == steps[..2] && steps[..2][..1] == steps[..1] && steps[..1][..0] == [];
    assert Run(1, []) == START;
    var s1 := Run(1, steps[..1]);
    assert s1 == AfterRecord(START, 1, a);
    assert s1 == START.(recorded := [a], queue := [a]);
    var s2 := Run(1, steps[..2]);
    assert s2 == s1.(draining := true, inFlight := map[0 := a]);
    var s3 := Run(1, steps[..3]);
    assert s3 == s2.(recorded := [a, b], queue := [b], reported := 1, removed := [a]);
  }

  // ------------------------------------------------------------ what a record drops, and that a drain gets through

  /** Of the queue with the new event the newest stay, as many as the bound allows and at least the new one; the older
      ones go and are reported, with the excess of a bound below one; nothing else changes. */
  lemma RecordMeans(s: State, bufferMax: int, ev: Event)
    ensures var r, all := Apply(s, bufferMax, Record(ev)), s.queue + [ev];
      var keep := if bufferMax < 1 then 1 else bufferMax;
      var cut := if |all| > keep then |all| - keep else 0;
      && r.queue == all[cut..] && r.removed == s.removed + all[..cut]
      && r.reported == s.reported + cut + Excess(bufferMax)
      && r.recorded == s.recorded + [ev] && r.inserted == s.inserted
      && r.draining == s.draining && r.inFlight == s.inFlight
  {
    var all := s.queue + [ev];
    if Overflows(s, bufferMax) {
      var n := Taken(s, DropCount(s, bufferMax));
      assert all[n..] == s.queue[n..] + [ev] && all[..n] == s.queue[..n];
    } else {
      assert all[..0] == [] && all[0..] == all;
    }
  }

  /** A failed insert gives up and leaves table and queue alone; the next drain begins with the head of the queue. */
  lemma FailureKeeps(s: State, bufferMax: int, task: nat, next: nat)
    requires OneDrain(s) && task in s.inFlight
    ensures var failed := Apply(s, bufferMax, InsertFail(task));
      && failed == s.(draining := false, inFlight := map[])
      && Apply(failed, bufferMax, StartDrain(next)) == s.(inFlight := map[next := s.queue[0]])
  {
    NoneWaiting(s, task);
  }

  /** So many finished inserts of one task. */
  function Inserts(task: nat, k: nat): seq<Step> {
    if k == 0 then [] else Inserts(task, k - 1) + [InsertOk(task)]
  }

  lemma RunOneMore(bufferMax: int, steps: seq<Step>, step: Step)
    ensures Run(bufferMax, steps + [step]) == Apply(Run(bufferMax, steps), bufferMax, step)
  {
    assert (steps + [step])[..|steps|] == steps;
  }

  lemma InsertNext(s: State, bufferMax: int, task: nat)
    requires OneDrain(s) && HeadInFlight(s) && task in s.inFlight
    ensures var r := Apply(s, bufferMax, InsertOk(task));
      && r.inserted == s.inserted + [s.queue[0]] && r.queue == s.queue[1..] && r.recorded == s.recorded
      && (r.queue != [] ==> r.draining && r.inFlight == map[task := r.queue[0]])
      && (r.queue == [] ==> !r.draining && r.inFlight == map[])
  {
    NoneWaiting(s, task);
  }

  /** The drain has moved the first `k` of the queue to the table. */
  ghost predicate Drained(s: State, r: State, task: nat, k: nat) {
    && k <= |s.queue| && r.inserted == s.inserted + s.queue[..k] && r.queue == s.queue[k..] && r.recorded == s.recorded
    && (if k < |s.queue| then r.draining && r.inFlight == map[task := s.queue[k]] else !r.draining && r.inFlight == map[])
  }

  lemma DrainedNext(s: State, r: State, bufferMax: int, task: nat, k: nat)
    requires k < |s.queue| && Drained(s, r, task, k)
    ensures Drained(s, Apply(r, bufferMax, InsertOk(task)), task, k + 1)
  {
    assert task in r.inFlight;
    InsertNext(r, bufferMax, task);
    assert s.queue[..k] + [s.queue[k]] == s.queue[..k + 1];
  }

  /** A drain whose inserts do not fail writes the queue to the table in order, one event an insert, and then ends. */
  lemma {:induction false} DrainGetsThrough(bufferMax: int, steps: seq<Step>, task: nat, k: nat)
    requires HeadInFlight(Run(bufferMax, steps)) && task in Run(bufferMax, steps).inFlight
    requires k <= |Run(bufferMax, steps).queue|
    ensures Drained(Run(bufferMax, steps), Run(bufferMax, steps + Inserts(task, k)), task, k)
  {
    var s := Run(bufferMax, steps);
    AlwaysOneDrain(bufferMax, steps);
    if k == 0 {
      assert steps + Inserts(task, 0) == steps;
      NoneWaiting(s, task);
    } else {
      DrainGetsThrough(bufferMax, steps, task, k - 1);
      assert steps + Inserts(task, k) == steps + Inserts(task, k - 1) + [InsertOk(task)];
      RunOneMore(bufferMax, steps + Inserts(task, k - 1), InsertOk(task));
      DrainedNext(s, Run(bufferMax, steps + Inserts(task, k - 1)), bufferMax, task, k - 1);
    }
  }

  /** So a run without drops that is left alone ends with everything recorded in the table, in order. */
  lemma CatchesUp(bufferMax: int, steps: seq<Step>, task: nat)
    requires bufferMax >= 1 && Run(bufferMax, steps).reported == 0 && task in Run(bufferMax, steps).inFlight
    ensures var s := Run(bufferMax, steps); var r := Run(bufferMax, steps + Inserts(task, |s.queue|));
      r.inserted == s.recorded && r.queue == [] && !r.draining
  {
    var s := Run(bufferMax, steps);
    AlwaysOrderly(bufferMax, steps);
    DrainGetsThrough(bufferMax, steps, task, |s.queue|);
    assert s.queue[..|s.queue|] == s.queue;
  }

  // ------------------------------------------------------------ the component's own form

  class Audit {
    const bufferMax: int
    var queue: seq<Event>
    var draining: bool
    var inFlight: map<nat, Event>
    var inserted: seq<Event>
    var reported: int
    ghost var removed: seq<Event>
    ghost var recorded: seq<Event>

    ghost function Value(): State
      reads this
    {
      State(queue, draining, inFlight, inserted, reported, removed, recorded)
    }

    constructor (bufferMax: int)
      ensures Value() == START && this.bufferMax == bufferMax
    {
      this.bufferMax := bufferMax;
      queue, draining, inFlight, inserted, reported, removed, recorded := [], false, map[], [], 0, [], [];
    }

    method RecordEvent(ev: Event)
      modifies this
      ensures Value() == Apply(old(Value()), bufferMax, Record(ev))
    {
      recorded := recorded + [ev];
      if |queue| >= bufferMax {
        var drop := |queue| - bufferMax + 1;
        var taken := if drop > |queue| then |queue| else drop;
        removed := removed + queue[..taken];
        queue := queue[taken..];
        reported := reported + drop;
      }
      queue := queue + [ev];
    }

    /** From the head of the loop to its wait, or to its end. */
    method Continue(task: nat)
      modifies this
      ensures Value() == LoopHead(old(Value()), task)
    {
      if |queue| > 0 {
        inFlight := inFlight[task := queue[0]];
      } else {
        inFlight := inFlight - {task};
        draining := false;
      }
    }

    method DrainOnce(task: nat)
      modifies this
      ensures Value() == Apply(old(Value()), bufferMax, StartDrain(task))
    {
      if draining {
        return;
      }
      draining := true;
      Continue(task);
    }

    /** The insert of a waiting task came back, with or without an error. */
    method InsertReturned(task: nat, ok: bool)
      requires task in inFlight
      modifies this
      ensures Value() == Apply(old(Value()), bufferMax, if ok then InsertOk(task) else InsertFail(task))
    {
      if !ok {
        inFlight := inFlight - {task};
        draining := false;
        return;
      }
      inserted := inserted + [inFlight[task]];
      queue := if |queue| > 0 then queue[1..] else [];
      Continue(task);
    }
  }
}
