/** Which step of the resync protocol logs what, what each step makes of a running resync, and the way to REST. */
module ResyncOutcomes {
  import opened Common
  import opened OrderBooks
  import opened RestBudgets
  import opened Resync
  import opened ResyncSafety

  // ------------------------------------------------------------ what a step logs

  /** The resync runs and waits at this point. */
  predicate Runs(s: State, id: nat, pair: string) {
    id in s.c.tasks && s.c.tasks[id].pair == pair
  }

  /** A bucket that has a whole token at `now`, with what it has earned since it was last looked at. */
  predicate HasToken(b: BucketState, now: real) {
    b.cap >= 1.0 && b.tokens + (now - b.last) / 1000.0 * b.refillPerSec >= 1.0
  }

  /** Both buckets have a token; a pair seen for the first time starts with a full one. */
  predicate MayGrant(budget: BudgetState, pairPerMin: real, pair: string, now: real) {
    && HasToken(budget.global, now)
    && (if pair in budget.perPair then HasToken(budget.perPair[pair], now) else pairPerMin >= 1.0)
  }

  /** The step is the one that logs the note. */
  predicate Logs(l: Limits, s: State, step: Step, note: Note) {
    match note
    case Started(id, pair) =>
      && id == s.c.next && pair !in s.c.inFlight
      && (step == OnRequest(pair) || (step.OnDelta? && step.pair == pair && BooksAfterDelta(s.books, pair, step.frame).gap.Some?))
    case GapSeen(pair) => step.OnDelta? && step.pair == pair && BooksAfterDelta(s.books, pair, step.frame).gap.Some?
    case SnapshotApplied(pair) =>
      || (step.OnSnapshot? && step.pair == pair)
      || (step.OnFetchReply? && step.reply.Some? && Runs(s, step.id, pair) && s.c.tasks[step.id].phase == Fetching)
    case Grant(id, pair, at) =>
      && Runs(s, id, pair) && s.c.tasks[id].phase == AwaitingBudget
      && step.OnBudget? && step.id == id && step.now == at && MayGrant(s.budget, l.pairPerMin, pair, at)
    case Fetch(id, pair, at) => step == OnStartFetch(id) && Runs(s, id, pair) && s.c.tasks[id].phase == Cleared(at)
    case Resynced(id, pair, false) =>
      && Runs(s, id, pair) && s.c.tasks[id].phase == AwaitingSnapshot && s.c.tasks[id].heard == GotFrame && step == OnListener(id)
    case Resynced(id, pair, true) =>
      Runs(s, id, pair) && s.c.tasks[id].phase == Fetching && step.OnFetchReply? && step.id == id && step.reply.Some?
    case Failed(id, pair) =>
      && Runs(s, id, pair)
      && (|| (s.c.tasks[id].phase == Subscribing && step == OnSubscribed(id, false))
          || (s.c.tasks[id].phase == AwaitingBudget && step.OnBudget? && step.id == id && step.now >= step.deadline
              && !MayGrant(s.budget, l.pairPerMin, pair, step.now))
          || (s.c.tasks[id].phase == Fetching && step == OnFetchReply(id, None)))
  }

  /** The note is among those the step added. */
  ghost predicate Added(s: State, r: State, note: Note) {
    exists k :: |s.c.log| <= k < |r.c.log| && r.c.log[k] == note
  }

  lemma GrantedIff(budget: BudgetState, pairPerMin: real, a: Attempt)
    ensures TryAcquire(budget, pairPerMin, a).granted <==> MayGrant(budget, pairPerMin, a.pair, a.now)
  {
    assert (a.now - a.now) / 1000.0 * (pairPerMin / 60.0) == 0.0;
  }

  /** Every step only adds to the log, and adds exactly the notes that it logs. */
  lemma LogsIff(l: Limits, s: State, step: Step, note: Note)
    ensures s.c.log <= Next(l, s, step).c.log
    ensures Added(s, Next(l, s, step), note) <==> Logs(l, s, step, note)
  {
    match step
    case OnBudget(id, now, deadline) =>
      if id in s.c.tasks { GrantedIff(s.budget, l.pairPerMin, Attempt(s.c.tasks[id].pair, now)); }
      BudgetLogs(l, s, step, note);
    case OnFetchReply(id, reply) => ReplyLogs(l, s, step, note);
    case OnSubscribed(id, ok) => TaskLogs(l, s, step, note);
    case OnListener(id) => TaskLogs(l, s, step, note);
    case OnStartFetch(id) => TaskLogs(l, s, step, note);
    case _ => MarketLogs(l, s, step, note);
  }

  lemma AddedIn(s: State, r: State, notes: seq<Note>, note: Note)
    requires r.c.log == s.c.log + notes
    ensures Added(s, r, note) <==> note in notes
  {
    if note in notes {
      var k :| 0 <= k < |notes| && notes[k] == note;
      assert r.c.log[|s.c.log| + k] == note;
    }
  }

  lemma BudgetLogs(l: Limits, s: State, step: Step, note: Note)
    requires step.OnBudget?
    ensures s.c.log <= Next(l, s, step).c.log
    ensures Added(s, Next(l, s, step), note) <==> Logs(l, s, step, note)
  {
    var id, r := step.id, Next(l, s, step);
    if At(s.c, id, AwaitingBudget) {
      var pair := s.c.tasks[id].pair;
      GrantedIff(s.budget, l.pairPerMin, Attempt(pair, step.now));
      var notes := if MayGrant(s.budget, l.pairPerMin, pair, step.now) then [Grant(id, pair, step.now)]
                   else if step.now >= step.deadline then [Failed(id, pair)] else [];
      assert r.c.log == s.c.log + notes;
      AddedIn(s, r, notes, note);
    } else {
      AddedIn(s, r, [], note);
    }
  }

  lemma ReplyLogs(l: Limits, s: State, step: Step, note: Note)
    requires step.OnFetchReply?
    ensures s.c.log <= Next(l, s, step).c.log
    ensures Added(s, Next(l, s, step), note) <==> Logs(l, s, step, note)
  {
    var id, r := step.id, Next(l, s, step);
    if At(s.c, id, Fetching) {
      var pair := s.c.tasks[id].pair;
      var notes := if step.reply == None then [Failed(id, pair)] else [SnapshotApplied(pair), Resynced(id, pair, true)];
      assert r.c.log == s.c.log + notes;
      AddedIn(s, r, notes, note);
    } else {
      AddedIn(s, r, [], note);
    }
  }

  lemma MarketLogs(l: Limits, s: State, step: Step, note: Note)
    requires step.OnRequest? || step.OnSnapshot? || step.OnDelta? || step.OnTimer?
    ensures s.c.log <= Next(l, s, step).c.log
    ensures Added(s, Next(l, s, step), note) <==> Logs(l, s, step, note)
  {
    var r := Next(l, s, step);
    match step
    case OnRequest(pair) => AddedIn(s, r, if pair in s.c.inFlight then [] else [Started(s.c.next, pair)], note);
    case OnSnapshot(pair, f) => AddedIn(s, r, [SnapshotApplied(pair)], note);
    case OnDelta(pair, f) =>
      var notes := if BooksAfterDelta(s.books, pair, f).gap == None then []
                   else [GapSeen(pair)] + if pair in s.c.inFlight then [] else [Started(s.c.next, pair)];
      assert r.c.log == s.c.log + notes;
      AddedIn(s, r, notes, note);
    case OnTimer(id) => AddedIn(s, r, [], note);
  }

  lemma SubscribedLogs(l: Limits, s: State, id: nat, ok: bool, note: Note)
    ensures s.c.log <= Next(l, s, OnSubscribed(id, ok)).c.log
    ensures Added(s, Next(l, s, OnSubscribed(id, ok)), note) <==> Logs(l, s, OnSubscribed(id, ok), note)
  {
    AddedIn(s, Next(l, s, OnSubscribed(id, ok)),
            if At(s.c, id, Subscribing) && !ok then [Failed(id, s.c.tasks[id].pair)] else [], note);
  }

  lemma ListenerLogs(l: Limits, s: State, id: nat, note: Note)
    ensures s.c.log <= Next(l, s, OnListener(id)).c.log
    ensures Added(s, Next(l, s, OnListener(id)), note) <==> Logs(l, s, OnListener(id), note)
  {
    AddedIn(s, Next(l, s, OnListener(id)),
            if At(s.c, id, AwaitingSnapshot) && s.c.tasks[id].heard == GotFrame
            then [Resynced(id, s.c.tasks[id].pair, false)] else [], note);
  }

  lemma FetchLogs(l: Limits, s: State, id: nat, note: Note)
    ensures s.c.log <= Next(l, s, OnStartFetch(id)).c.log
    ensures Added(s, Next(l, s, OnStartFetch(id)), note) <==> Logs(l, s, OnStartFetch(id), note)
  {
    AddedIn(s, Next(l, s, OnStartFetch(id)),
            if id in s.c.tasks && s.c.tasks[id].phase.Cleared?
            then [Fetch(id, s.c.tasks[id].pair, s.c.tasks[id].phase.at)] else [], note);
  }

  lemma TaskLogs(l: Limits, s: State, step: Step, note: Note)
    requires step.OnSubscribed? || step.OnListener? || step.OnStartFetch?
    ensures s.c.log <= Next(l, s, step).c.log
    ensures Added(s, Next(l, s, step), note) <==> Logs(l, s, step, note)
  {
    match step
    case OnSubscribed(id, ok) => SubscribedLogs(l, s, id, ok, note);
    case OnListener(id) => ListenerLogs(l, s, id, note);
    case OnStartFetch(id) => FetchLogs(l, s, id, note);
  }

  /** Step `k` of the run logged the note. */
  predicate LoggedBy(l: Limits, steps: seq<Step>, k: nat, note: Note) {
    k < |steps| && Logs(l, Run(l, steps[..k]), steps[k], note)
  }

  lemma LoggedEarlier(l: Limits, steps: seq<Step>, k: nat, note: Note)
    requires k < |steps| - 1
    ensures LoggedBy(l, steps[..|steps| - 1], k, note) <==> LoggedBy(l, steps, k, note)
  {
    assert steps[..|steps| - 1][..k] == steps[..k];
  }

  /** Over every run: a note is in the log exactly if some step of the run logged it. */
  lemma {:induction false} LoggedIff(l: Limits, steps: seq<Step>, note: Note)
    ensures note in Run(l, steps).c.log <==> exists k: nat :: LoggedBy(l, steps, k, note)
  {
    if steps != [] {
      var n := |steps| - 1;
      LoggedIff(l, steps[..n], note);
      LogsIff(l, Run(l, steps[..n]), steps[n], note);
      SplitLog(Run(l, steps[..n]), Run(l, steps), note);
      assert LoggedBy(l, steps, n, note) <==> Logs(l, Run(l, steps[..n]), steps[n], note);
      if k: nat :| LoggedBy(l, steps[..n], k, note) { LoggedEarlier(l, steps, k, note); }
      if k: nat :| LoggedBy(l, steps, k, note) {
        if k < n { LoggedEarlier(l, steps, k, note); }
      }
    }
  }

  lemma SplitLog(s: State, r: State, note: Note)
    requires s.c.log <= r.c.log
    ensures note in r.c.log <==> note in s.c.log || Added(s, r, note)
  {
    if note in r.c.log {
      var k :| 0 <= k < |r.c.log| && r.c.log[k] == note;
      if k < |s.c.log| { assert s.c.log[k] == note; }
    }
  }

  // ------------------------------------------------------------ what a step makes of a resync

  predicate Ends(l: Limits, s: State, step: Step, id: nat, pair: string) {
    || Logs(l, s, step, Failed(id, pair)) || Logs(l, s, step, Resynced(id, pair, false)) || Logs(l, s, step, Resynced(id, pair, true))
  }

  function PhaseAfter(l: Limits, s: State, step: Step, id: nat): Phase
    requires id in s.c.tasks
  {
    var t := s.c.tasks[id];
    if t.phase == Subscribing && step == OnSubscribed(id, true) then AwaitingSnapshot
    else if t.phase == AwaitingSnapshot && t.heard == TimedOut && step == OnListener(id) then AwaitingBudget
    else if step.OnBudget? && Logs(l, s, step, Grant(id, t.pair, step.now)) then Cleared(step.now)
    else if t.phase.Cleared? && step == OnStartFetch(id) then Fetching
    else t.phase
  }

  function HeardAfter(l: Limits, s: State, step: Step, id: nat): Heard
    requires id in s.c.tasks
  {
    var t := s.c.tasks[id];
    if t.heard != Nothing then t.heard
    else if Logs(l, s, step, SnapshotApplied(t.pair)) then GotFrame
    else if step == OnTimer(id) then TimedOut
    else Nothing
  }

  /** A running resync is gone exactly after the step that logs its outcome; else it keeps its pair, hears the first of a
      snapshot of its pair and its timeout, and moves on: after its subscription to the listener, after a timeout to the
      budget, with a grant to the fetch. */
  lemma TaskMeans(l: Limits, s: State, step: Step, id: nat)
    requires id in s.c.tasks && id < s.c.next
    ensures Moved(l, s, step, id, Next(l, s, step))
  {
    match step
    case OnBudget(i, now, deadline) =>
      if i in s.c.tasks { GrantedIff(s.budget, l.pairPerMin, Attempt(s.c.tasks[i].pair, now)); }
      MovedByBudget(l, s, step, id);
    case OnSubscribed(i, ok) => MovedByTask(l, s, step, id);
    case OnListener(i) => MovedByTask(l, s, step, id);
    case OnStartFetch(i) => MovedByTask(l, s, step, id);
    case OnFetchReply(i, reply) => MovedByReply(l, s, step, id);
    case _ => MovedByMarket(l, s, step, id);
  }

  predicate Moved(l: Limits, s: State, step: Step, id: nat, r: State)
    requires id in s.c.tasks
  {
    var t := s.c.tasks[id];
    && (id in r.c.tasks <==> !Ends(l, s, step, id, t.pair))
    && (id in r.c.tasks ==> r.c.tasks[id] == Task(t.pair, PhaseAfter(l, s, step, id), HeardAfter(l, s, step, id)))
  }

  lemma MovedByBudget(l: Limits, s: State, step: Step, id: nat)
    requires step.OnBudget? && id in s.c.tasks
    requires step.id in s.c.tasks ==>
      (TryAcquire(s.budget, l.pairPerMin, Attempt(s.c.tasks[step.id].pair, step.now)).granted
       <==> MayGrant(s.budget, l.pairPerMin, s.c.tasks[step.id].pair, step.now))
    ensures Moved(l, s, step, id, Next(l, s, step))
  {
  }

  lemma MovedByTask(l: Limits, s: State, step: Step, id: nat)
    requires (step.OnSubscribed? || step.OnListener? || step.OnStartFetch?) && id in s.c.tasks
    ensures Moved(l, s, step, id, Next(l, s, step))
  {
  }

  lemma MovedByReply(l: Limits, s: State, step: Step, id: nat)
    requires step.OnFetchReply? && id in s.c.tasks
    ensures Moved(l, s, step, id, Next(l, s, step))
  {
  }

  lemma MovedByMarket(l: Limits, s: State, step: Step, id: nat)
    requires (step.OnRequest? || step.OnSnapshot? || step.OnDelta? || step.OnTimer?) && id in s.c.tasks && id < s.c.next
    ensures Moved(l, s, step, id, Next(l, s, step))
  {
  }

  /** A resync begins exactly with the step that logs its start, waiting for its subscription. */
  lemma BeginsIff(l: Limits, s: State, step: Step, id: nat)
    requires id !in s.c.tasks
    ensures var r := Next(l, s, step);
      id in r.c.tasks <==> exists pair :: Logs(l, s, step, Started(id, pair)) && r.c.tasks[id] == Task(pair, Subscribing, Nothing)
  {
    var r := Next(l, s, step);
    match step
    case OnRequest(pair) => assert id in r.c.tasks ==> Logs(l, s, step, Started(id, pair));
    case OnDelta(pair, f) => assert id in r.c.tasks ==> Logs(l, s, step, Started(id, pair));
    case _ =>
  }

  // ------------------------------------------------------------ the way to REST

  /** A step about something else than this resync. */
  predicate Elsewhere(step: Step, id: nat) {
    match step
    case OnTimer(i) => i != id
    case OnSubscribed(i, _) => i != id
    case OnListener(i) => i != id
    case OnBudget(i, _, _) => i != id
    case OnStartFetch(i) => i != id
    case OnFetchReply(i, _) => i != id
    case _ => true
  }

  predicate AllElsewhere(steps: seq<Step>, id: nat) {
    forall k | 0 <= k < |steps| :: Elsewhere(steps[k], id)
  }

  /** No snapshot of the pair comes over the socket. */
  predicate NoSnapshot(steps: seq<Step>, pair: string) {
    forall k | 0 <= k < |steps| :: !(steps[k].OnSnapshot? && steps[k].pair == pair)
  }

  lemma RunMore(l: Limits, steps: seq<Step>, step: Step)
    ensures Run(l, steps + [step]) == Next(l, Run(l, steps), step)
  {
    assert (steps + [step])[..|steps|] == steps;
  }

  /** After this run the resync waits at this point, having heard this. */
  predicate WaitsAt(l: Limits, steps: seq<Step>, id: nat, t: Task) {
    id in Run(l, steps).c.tasks && Run(l, steps).c.tasks[id] == t
  }

  lemma TaskIsOld(l: Limits, steps: seq<Step>, id: nat)
    requires id in Run(l, steps).c.tasks
    ensures id < Run(l, steps).c.next
  {
    EveryRunIsSafe(l, steps);
  }

  /** The reply to another resync is for another pair. */
  lemma OtherPair(l: Limits, steps: seq<Step>, id: nat, step: Step)
    requires id in Run(l, steps).c.tasks && Elsewhere(step, id) && step.OnFetchReply?
    ensures !Runs(Run(l, steps), step.id, Run(l, steps).c.tasks[id].pair)
  {
    EveryRunIsSafe(l, steps);
  }

  /** A resync outwaits one step that is about something else, unless it is a snapshot it listens for. */
  lemma OutwaitsOne(l: Limits, steps: seq<Step>, step: Step, id: nat, t: Task)
    requires WaitsAt(l, steps, id, t) && Elsewhere(step, id)
    requires t.heard == Nothing ==> !(step.OnSnapshot? && step.pair == t.pair)
    ensures WaitsAt(l, steps + [step], id, t)
  {
    var s := Run(l, steps);
    RunMore(l, steps, step);
    TaskIsOld(l, steps, id);
    TaskMeans(l, s, step, id);
    if step.OnFetchReply? { OtherPair(l, steps, id, step); }
    assert !Ends(l, s, step, id, t.pair);
    assert !Logs(l, s, step, SnapshotApplied(t.pair)) || t.heard != Nothing;
  }

  lemma {:induction false} Outwaits(l: Limits, steps: seq<Step>, others: seq<Step>, id: nat, t: Task)
    requires WaitsAt(l, steps, id, t) && AllElsewhere(others, id) && (t.heard == Nothing ==> NoSnapshot(others, t.pair))
    ensures WaitsAt(l, steps + others, id, t)
  {
    if others == [] {
      assert steps + others == steps;
    } else {
      var n := |others| - 1;
      Outwaits(l, steps, others[..n], id, t);
      OutwaitsOne(l, steps + others[..n], others[n], id, t);
      assert steps + others == steps + others[..n] + [others[n]];
    }
  }

  /** One step of its own, and then any others. */
  lemma MovesOn(l: Limits, steps: seq<Step>, step: Step, others: seq<Step>, id: nat, t: Task, u: Task)
    requires WaitsAt(l, steps, id, t) && !Ends(l, Run(l, steps), step, id, t.pair)
    requires u == Task(t.pair, PhaseAfter(l, Run(l, steps), step, id), HeardAfter(l, Run(l, steps), step, id))
    requires AllElsewhere(others, id) && (u.heard == Nothing ==> NoSnapshot(others, u.pair))
    ensures WaitsAt(l, steps + [step] + others, id, u)
  {
    RunMore(l, steps, step);
    TaskIsOld(l, steps, id);
    TaskMeans(l, Run(l, steps), step, id);
    Outwaits(l, steps + [step], others, id, u);
  }

  /** The book shows the frame and is live. */
  predicate ShowsFrame(books: Books, pair: string, f: Frame) {
    && pair in books && books[pair].state == Live
    && books[pair].asks == SnapshotSide(f.asks) && books[pair].bids == SnapshotSide(f.bids)
  }

  /** The pair has just been resynced via REST, is released, and its book shows the reply. */
  predicate ResyncedViaRest(r: State, id: nat, pair: string, f: Frame) {
    && r.c.log != [] && r.c.log[|r.c.log| - 1] == Resynced(id, pair, true)
    && id !in r.c.tasks && pair !in r.c.inFlight && ShowsFrame(r.books, pair, f)
  }

  /** The last step: the pair is resynced via REST, released, and its book shows the reply. */
  lemma ReplyResyncs(l: Limits, steps: seq<Step>, id: nat, pair: string, heard: Heard, f: Frame)
    requires WaitsAt(l, steps, id, Task(pair, Fetching, heard))
    ensures ResyncedViaRest(Run(l, steps + [OnFetchReply(id, Some(f))]), id, pair, f)
  {
    RunMore(l, steps, OnFetchReply(id, Some(f)));
  }

  lemma TimesOut(l: Limits, steps: seq<Step>, id: nat, pair: string, w1: seq<Step>, w2: seq<Step>, w3: seq<Step>)
    requires WaitsAt(l, steps, id, Task(pair, Subscribing, Nothing))
    requires AllElsewhere(w1, id) && AllElsewhere(w2, id) && AllElsewhere(w3, id) && NoSnapshot(w1, pair)
    ensures WaitsAt(l, steps + [OnSubscribed(id, true)] + w1 + [OnTimer(id)] + w2 + [OnListener(id)] + w3,
                    id, Task(pair, AwaitingBudget, TimedOut))
  {
    MovesOn(l, steps, OnSubscribed(id, true), w1, id, Task(pair, Subscribing, Nothing), Task(pair, AwaitingSnapshot, Nothing));
    var a1 := steps + [OnSubscribed(id, true)] + w1;
    MovesOn(l, a1, OnTimer(id), w2, id, Task(pair, AwaitingSnapshot, Nothing), Task(pair, AwaitingSnapshot, TimedOut));
    var a2 := a1 + [OnTimer(id)] + w2;
    MovesOn(l, a2, OnListener(id), w3, id, Task(pair, AwaitingSnapshot, TimedOut), Task(pair, AwaitingBudget, TimedOut));
  }

  lemma GrantClears(l: Limits, asked: seq<Step>, id: nat, pair: string, w4: seq<Step>, now: real, deadline: real)
    requires WaitsAt(l, asked, id, Task(pair, AwaitingBudget, TimedOut)) && AllElsewhere(w4, id)
    requires MayGrant(Run(l, asked).budget, l.pairPerMin, pair, now)
    ensures WaitsAt(l, asked + [OnBudget(id, now, deadline)] + w4, id, Task(pair, Cleared(now), TimedOut))
  {
    MovesOn(l, asked, OnBudget(id, now, deadline), w4, id, Task(pair, AwaitingBudget, TimedOut), Task(pair, Cleared(now), TimedOut));
  }

  lemma GrantedResyncs(
      l: Limits, asked: seq<Step>, id: nat, pair: string, w4: seq<Step>, w5: seq<Step>, now: real, deadline: real, f: Frame)
    requires WaitsAt(l, asked, id, Task(pair, AwaitingBudget, TimedOut)) && AllElsewhere(w4, id) && AllElsewhere(w5, id)
    requires MayGrant(Run(l, asked).budget, l.pairPerMin, pair, now)
    ensures var r := Run(l, asked + [OnBudget(id, now, deadline)] + w4 + [OnStartFetch(id)] + w5 + [OnFetchReply(id, Some(f))]);
      ResyncedViaRest(r, id, pair, f)
  {
    var a4 := asked + [OnBudget(id, now, deadline)] + w4;
    GrantClears(l, asked, id, pair, w4, now, deadline);
    MovesOn(l, a4, OnStartFetch(id), w5, id, Task(pair, Cleared(now), TimedOut), Task(pair, Fetching, TimedOut));
    ReplyResyncs(l, a4 + [OnStartFetch(id)] + w5, id, pair, TimedOut, f);
  }

  /** Without a snapshot over the socket, a subscribed resync times out, gets a token, fetches, and ends with the pair
      resynced via REST, whatever else happens in between: other pairs, deltas, other resyncs, also snapshots once the
      timeout is there. */
  lemma FallsBackToRest(
      l: Limits, steps: seq<Step>, id: nat, pair: string, w1: seq<Step>, w2: seq<Step>, w3: seq<Step>, w4: seq<Step>, w5: seq<Step>,
      now: real, deadline: real, f: Frame)
    requires WaitsAt(l, steps, id, Task(pair, Subscribing, Nothing))
    requires AllElsewhere(w1, id) && AllElsewhere(w2, id) && AllElsewhere(w3, id) && AllElsewhere(w4, id) && AllElsewhere(w5, id)
    requires NoSnapshot(w1, pair)
    requires var asked := steps + [OnSubscribed(id, true)] + w1 + [OnTimer(id)] + w2 + [OnListener(id)] + w3;
      MayGrant(Run(l, asked).budget, l.pairPerMin, pair, now)
    ensures var asked := steps + [OnSubscribed(id, true)] + w1 + [OnTimer(id)] + w2 + [OnListener(id)] + w3;
      var r := Run(l, asked + [OnBudget(id, now, deadline)] + w4 + [OnStartFetch(id)] + w5 + [OnFetchReply(id, Some(f))]);
      ResyncedViaRest(r, id, pair, f)
  {
    var asked := steps + [OnSubscribed(id, true)] + w1 + [OnTimer(id)] + w2 + [OnListener(id)] + w3;
    TimesOut(l, steps, id, pair, w1, w2, w3);
    GrantedResyncs(l, asked, id, pair, w4, w5, now, deadline, f);
  }

  /** With a snapshot over the socket in time, it ends with the pair resynced over the socket. */
  lemma SocketIsEnough(l: Limits, steps: seq<Step>, id: nat, pair: string, w1: seq<Step>, w2: seq<Step>, f: Frame)
    requires WaitsAt(l, steps, id, Task(pair, AwaitingSnapshot, Nothing))
    requires AllElsewhere(w1, id) && AllElsewhere(w2, id) && NoSnapshot(w1, pair)
    ensures var r := Run(l, steps + w1 + [OnSnapshot(pair, f)] + w2 + [OnListener(id)]);
      && r.c.log != [] && r.c.log[|r.c.log| - 1] == Resynced(id, pair, false) && id !in r.c.tasks && pair !in r.c.inFlight
    ensures ShowsFrame(Run(l, steps + w1 + [OnSnapshot(pair, f)]).books, pair, f)
  {
    Outwaits(l, steps, w1, id, Task(pair, AwaitingSnapshot, Nothing));
    MovesOn(l, steps + w1, OnSnapshot(pair, f), w2, id, Task(pair, AwaitingSnapshot, Nothing), Task(pair, AwaitingSnapshot, GotFrame));
    RunMore(l, steps + w1, OnSnapshot(pair, f));
    RunMore(l, steps + w1 + [OnSnapshot(pair, f)] + w2, OnListener(id));
  }
}
