/** What every run of the resync protocol keeps, proved move by move. */
module ResyncSafety {
  import opened Common
  import opened OrderBooks
  import opened RestBudgets
  import opened Resync

  // ------------------------------------------------------------ one resync per pair

  ghost predicate Owned(c: Control, p: string) {
    exists i :: i in c.tasks && c.tasks[i].pair == p
  }

  ghost predicate OnePerPair(c: Control) {
    && (forall i, j | i in c.tasks && j in c.tasks && i != j :: c.tasks[i].pair != c.tasks[j].pair)
    && (forall i | i in c.tasks :: c.tasks[i].pair in c.inFlight && i < c.next)
    && (forall p | p in c.inFlight :: Owned(c, p))
  }

  lemma OwnerStays(c: Control, m: Move, p: string)
    requires OnePerPair(c) && Enabled(c, m) && p in Make(c, m).inFlight
    ensures Owned(Make(c, m), p)
  {
    var d := Make(c, m);
    if p in c.inFlight {
      assert Owned(c, p);
      var i :| i in c.tasks && c.tasks[i].pair == p;
      assert i in d.tasks && d.tasks[i].pair == p;
    } else {
      assert m.MOpen? && d.tasks[c.next].pair == p;
    }
  }

  ghost predicate PairsDistinct(c: Control) {
    && (forall i, j | i in c.tasks && j in c.tasks && i != j :: c.tasks[i].pair != c.tasks[j].pair)
    && (forall i | i in c.tasks :: c.tasks[i].pair in c.inFlight && i < c.next)
  }

  lemma OpenPairsDistinct(c: Control, pair: string)
    requires OnePerPair(c)
    ensures PairsDistinct(Make(c, MOpen(pair)))
  {
  }

  lemma ClosePairsDistinct(c: Control, m: Move)
    requires OnePerPair(c) && Enabled(c, m) && m.MClose?
    ensures PairsDistinct(Make(c, m))
  {
  }

  lemma MovePairsDistinct(c: Control, m: Move)
    requires OnePerPair(c) && Enabled(c, m)
    ensures PairsDistinct(Make(c, m))
  {
    if m.MOpen? { OpenPairsDistinct(c, m.pair); }
    else if m.MClose? { ClosePairsDistinct(c, m); }
  }

  lemma MoveOnePerPair(c: Control, m: Move)
    requires OnePerPair(c) && Enabled(c, m)
    ensures OnePerPair(Make(c, m))
  {
    MovePairsDistinct(c, m);
    forall p | p in Make(c, m).inFlight ensures Owned(Make(c, m), p) { OwnerStays(c, m, p); }
  }

  // ------------------------------------------------------------ one outcome per resync

  /** How often the log names a resync: as started, with an outcome, with a grant, with a fetch. */
  datatype Account = Account(starts: nat, outcomes: nat, grants: nat, fetches: nat)

  function Count(a: Account, n: Note, id: nat): Account {
    match n
    case Started(i, _) => if i == id then a.(starts := a.starts + 1) else a
    case Resynced(i, _, _) => if i == id then a.(outcomes := a.outcomes + 1) else a
    case Failed(i, _) => if i == id then a.(outcomes := a.outcomes + 1) else a
    case Grant(i, _, _) => if i == id then a.(grants := a.grants + 1) else a
    case Fetch(i, _, _) => if i == id then a.(fetches := a.fetches + 1) else a
    case _ => a
  }

  function AccountOf(log: seq<Note>, id: nat): Account {
    if log == [] then Account(0, 0, 0, 0) else Count(AccountOf(log[..|log| - 1], id), log[|log| - 1], id)
  }

  function One(b: bool): nat { if b then 1 else 0 }

  lemma CountNote(log: seq<Note>, n: Note, id: nat)
    ensures AccountOf(log + [n], id) == Count(AccountOf(log, id), n, id)
  {
    assert (log + [n])[..|log|] == log;
  }

  function TaskOf(c: Control, id: nat): Option<Task> {
    if id in c.tasks then Some(c.tasks[id]) else None
  }

  /** The account that goes with a resync that was or was not started, and with its task while it has one. */
  ghost predicate Fits(a: Account, started: bool, task: Option<Task>) {
    && a.starts == One(started)
    && a.outcomes == One(started && task == None)
    && a.fetches <= a.grants <= One(started)
    && (task.Some? ==>
          && a.grants == One(task.value.phase.Cleared? || task.value.phase.Fetching?)
          && a.fetches == One(task.value.phase.Fetching?))
  }

  /** A resync is started once, has no outcome while it runs and exactly one when it is gone, and makes at
      most one REST fetch, on a grant of its own. */
  ghost predicate Accounted(c: Control, id: nat) {
    Fits(AccountOf(c.log, id), id < c.next, TaskOf(c, id))
  }

  /** The note a move leaves in the log. */
  ghost function NoteOf(c: Control, m: Move): Option<Note>
    requires Enabled(c, m)
  {
    match m
    case MOpen(pair) => if pair in c.inFlight then None else Some(Started(c.next, pair))
    case MHear(pair) => Some(SnapshotApplied(pair))
    case MExpire(id) => None
    case MEnter(id, phase) =>
      var t := c.tasks[id];
      if phase.Cleared? then Some(Grant(id, t.pair, phase.at))
      else if phase.Fetching? then Some(Fetch(id, t.pair, if t.phase.Cleared? then t.phase.at else 0.0))
      else None
    case MClose(id, outcome) => Some(outcome)
    case MGap(pair) => Some(GapSeen(pair))
  }

  lemma MoveNotes(c: Control, m: Move, id: nat)
    requires Enabled(c, m)
    ensures Make(c, m).log == if NoteOf(c, m) == None then c.log else c.log + [NoteOf(c, m).value]
    ensures AccountOf(Make(c, m).log, id)
            == if NoteOf(c, m) == None then AccountOf(c.log, id) else Count(AccountOf(c.log, id), NoteOf(c, m).value, id)
  {
    if NoteOf(c, m).Some? { CountNote(c.log, NoteOf(c, m).value, id); }
  }

  /** What a move makes of the task and the account of one resync fits again. */
  lemma MoveFits(c: Control, m: Move, id: nat, a: Account)
    requires OnePerPair(c) && Enabled(c, m) && Fits(a, id < c.next, TaskOf(c, id))
    ensures Fits(if NoteOf(c, m) == None then a else Count(a, NoteOf(c, m).value, id),
                 id < Make(c, m).next, TaskOf(Make(c, m), id))
  {
    match m
    case MOpen(pair) => OpenFits(c, pair, id, a);
    case MHear(pair) => HearFits(c, m, id, a);
    case MExpire(i) => HearFits(c, m, id, a);
    case MEnter(i, phase) => EnterFits(c, i, phase, id, a);
    case MClose(i, outcome) => CloseFits(c, i, outcome, id, a);
    case MGap(pair) => HearFits(c, m, id, a);
  }

  lemma OpenFits(c: Control, pair: string, id: nat, a: Account)
    requires OnePerPair(c) && Enabled(c, MOpen(pair)) && Fits(a, id < c.next, TaskOf(c, id))
    ensures var m := MOpen(pair);
      Fits(if NoteOf(c, m) == None then a else Count(a, NoteOf(c, m).value, id), id < Make(c, m).next, TaskOf(Make(c, m), id))
  {
  }

  lemma HearFits(c: Control, m: Move, id: nat, a: Account)
    requires OnePerPair(c) && Enabled(c, m) && Fits(a, id < c.next, TaskOf(c, id)) && (m.MHear? || m.MExpire? || m.MGap?)
    ensures Fits(if NoteOf(c, m) == None then a else Count(a, NoteOf(c, m).value, id),
                 id < Make(c, m).next, TaskOf(Make(c, m), id))
  {
  }

  lemma EnterFits(c: Control, i: nat, phase: Phase, id: nat, a: Account)
    requires OnePerPair(c) && Enabled(c, MEnter(i, phase)) && Fits(a, id < c.next, TaskOf(c, id))
    ensures var m := MEnter(i, phase);
      Fits(if NoteOf(c, m) == None then a else Count(a, NoteOf(c, m).value, id), id < Make(c, m).next, TaskOf(Make(c, m), id))
  {
  }

  lemma CloseFits(c: Control, i: nat, outcome: Note, id: nat, a: Account)
    requires OnePerPair(c) && Enabled(c, MClose(i, outcome)) && Fits(a, id < c.next, TaskOf(c, id))
    ensures var m := MClose(i, outcome);
      Fits(if NoteOf(c, m) == None then a else Count(a, NoteOf(c, m).value, id), id < Make(c, m).next, TaskOf(Make(c, m), id))
  {
  }

  lemma MoveAccounted(c: Control, m: Move, id: nat)
    requires OnePerPair(c) && Enabled(c, m) && Accounted(c, id)
    ensures Accounted(Make(c, m), id)
  {
    MoveNotes(c, m, id);
    MoveFits(c, m, id, AccountOf(c.log, id));
  }

  // ------------------------------------------------------------ what comes before what

  ghost predicate StartedBefore(log: seq<Note>, id: nat, pair: string) {
    exists i :: 0 <= i < |log| && log[i] == Started(id, pair)
  }

  /** The log holds a start of the resync and, later, a snapshot applied to its pair. */
  ghost predicate SnapshotSince(log: seq<Note>, id: nat, pair: string) {
    exists i, j :: 0 <= i < j < |log| && log[i] == Started(id, pair) && log[j] == SnapshotApplied(pair)
  }

  ghost predicate GrantedBefore(log: seq<Note>, id: nat, pair: string, at: real) {
    exists i :: 0 <= i < |log| && log[i] == Grant(id, pair, at)
  }

  /** Every success follows a snapshot applied after its request; every fetch follows its own grant. */
  ghost predicate WellOrdered(log: seq<Note>) {
    && (forall k | 0 <= k < |log| && log[k].Resynced? :: SnapshotSince(log[..k], log[k].id, log[k].pair))
    && (forall k | 0 <= k < |log| && log[k].Fetch? :: GrantedBefore(log[..k], log[k].id, log[k].pair, log[k].grantedAt))
  }

  ghost predicate TasksOrdered(c: Control) {
    forall i | i in c.tasks ::
      && StartedBefore(c.log, i, c.tasks[i].pair)
      && (c.tasks[i].heard == GotFrame ==> SnapshotSince(c.log, i, c.tasks[i].pair))
      && (c.tasks[i].phase.Cleared? ==> GrantedBefore(c.log, i, c.tasks[i].pair, c.tasks[i].phase.at))
  }

  lemma PushKeeps(log: seq<Note>, n: Note, id: nat, pair: string, at: real)
    ensures StartedBefore(log, id, pair) ==> StartedBefore(log + [n], id, pair)
    ensures SnapshotSince(log, id, pair) ==> SnapshotSince(log + [n], id, pair)
    ensures GrantedBefore(log, id, pair, at) ==> GrantedBefore(log + [n], id, pair, at)
    ensures n == Started(id, pair) ==> StartedBefore(log + [n], id, pair)
    ensures n == Grant(id, pair, at) ==> GrantedBefore(log + [n], id, pair, at)
    ensures StartedBefore(log, id, pair) && n == SnapshotApplied(pair) ==> SnapshotSince(log + [n], id, pair)
  {
    var l := log + [n];
    assert l[|log|] == n;
    if StartedBefore(log, id, pair) {
      var i :| 0 <= i < |log| && log[i] == Started(id, pair);
      assert l[i] == Started(id, pair);
    }
    if SnapshotSince(log, id, pair) {
      var i, j :| 0 <= i < j < |log| && log[i] == Started(id, pair) && log[j] == SnapshotApplied(pair);
      assert l[i] == Started(id, pair) && l[j] == SnapshotApplied(pair);
    }
    if GrantedBefore(log, id, pair, at) {
      var i :| 0 <= i < |log| && log[i] == Grant(id, pair, at);
      assert l[i] == Grant(id, pair, at);
    }
  }

  lemma MoveTasksOrdered(c: Control, m: Move)
    requires OnePerPair(c) && Enabled(c, m) && TasksOrdered(c)
    ensures TasksOrdered(Make(c, m))
  {
    var d := Make(c, m);
    forall i | i in d.tasks
      ensures StartedBefore(d.log, i, d.tasks[i].pair)
      ensures d.tasks[i].heard == GotFrame ==> SnapshotSince(d.log, i, d.tasks[i].pair)
      ensures d.tasks[i].phase.Cleared? ==> GrantedBefore(d.log, i, d.tasks[i].pair, d.tasks[i].phase.at)
    {
      if |d.log| > |c.log| {
        var n := d.log[|c.log|];
        assert d.log == c.log + [n];
        PushKeeps(c.log, n, i, d.tasks[i].pair, if d.tasks[i].phase.Cleared? then d.tasks[i].phase.at else 0.0);
      }
    }
  }

  lemma LogPush(log: seq<Note>, n: Note)
    requires WellOrdered(log)
    requires n.Resynced? ==> SnapshotSince(log, n.id, n.pair)
    requires n.Fetch? ==> GrantedBefore(log, n.id, n.pair, n.grantedAt)
    ensures WellOrdered(log + [n])
  {
    var l := log + [n];
    forall k | 0 <= k < |l| && l[k].Resynced? ensures SnapshotSince(l[..k], l[k].id, l[k].pair) {
      assert l[..k] == log[..k];
      if k == |log| { assert log[..k] == log; }
    }
    forall k | 0 <= k < |l| && l[k].Fetch? ensures GrantedBefore(l[..k], l[k].id, l[k].pair, l[k].grantedAt) {
      assert l[..k] == log[..k];
      if k == |log| { assert log[..k] == log; }
    }
  }

  lemma MoveWellOrdered(c: Control, m: Move)
    requires OnePerPair(c) && Enabled(c, m) && TasksOrdered(c) && WellOrdered(c.log)
    ensures WellOrdered(Make(c, m).log)
  {
    var d := Make(c, m);
    if |d.log| > |c.log| {
      var n := d.log[|c.log|];
      assert d.log == c.log + [n];
      if n.Resynced? {
        assert StartedBefore(c.log, m.id, n.pair);
        if n.viaRest { LastSnapshotSince(c.log, n.id, n.pair); }
      }
      LogPush(c.log, n);
    }
  }

  lemma LastSnapshotSince(log: seq<Note>, id: nat, pair: string)
    requires StartedBefore(log, id, pair) && log != [] && log[|log| - 1] == SnapshotApplied(pair)
    ensures SnapshotSince(log, id, pair)
  {
    var i :| 0 <= i < |log| && log[i] == Started(id, pair);
    assert i < |log| - 1 && log[i] == Started(id, pair) && log[|log| - 1] == SnapshotApplied(pair);
  }

  // ------------------------------------------------------------ whole runs

  ghost predicate Safe(c: Control) {
    && OnePerPair(c)
    && (forall id :: Accounted(c, id))
    && TasksOrdered(c)
    && WellOrdered(c.log)
  }

  lemma MoveSafe(c: Control, m: Move)
    requires Safe(c) && Enabled(c, m)
    ensures Safe(Make(c, m))
  {
    MoveOnePerPair(c, m);
    forall id: nat ensures Accounted(Make(c, m), id) { MoveAccounted(c, m, id); }
    MoveTasksOrdered(c, m);
    MoveWellOrdered(c, m);
  }

  lemma ReachSafe(c: Control, d: Control)
    requires Safe(c) && Reaches(c, d)
    ensures Safe(d)
  {
    if m :| Enabled(c, m) && d == Make(c, m) {
      MoveSafe(c, m);
    } else if d != c {
      var m, n :| Enabled(c, m) && Enabled(Make(c, m), n) && d == Make(Make(c, m), n);
      MoveSafe(c, m);
      MoveSafe(Make(c, m), n);
    }
  }

  /** Over every interleaving: at most one resync per pair is in flight, each has exactly one outcome once
      it is gone, each success follows a snapshot applied after its request, each REST fetch its own grant. */
  lemma {:induction false} EveryRunIsSafe(l: Limits, steps: seq<Step>)
    ensures Safe(Run(l, steps).c)
  {
    if steps != [] {
      var s := Run(l, steps[..|steps| - 1]);
      EveryRunIsSafe(l, steps[..|steps| - 1]);
      StepsAreMoves(l, s, steps[|steps| - 1]);
      ReachSafe(s.c, Next(l, s, steps[|steps| - 1]).c);
    }
  }

  // ------------------------------------------------------------ the rate of REST fetches

  predicate Within(pair: Option<string>, p: string, at: real, from: real, to: real) {
    from <= at <= to && (pair == None || pair == Some(p))
  }

  /** Fetches whose grant lies in [from, to]; for one pair, or for all if `pair` is None. */
  function FetchesIn(log: seq<Note>, pair: Option<string>, from: real, to: real): nat {
    if log == [] then 0
    else
      var n := log[|log| - 1];
      FetchesIn(log[..|log| - 1], pair, from, to) + One(n.Fetch? && Within(pair, n.pair, n.grantedAt, from, to))
  }

  function GrantsIn(log: seq<Note>, pair: Option<string>, from: real, to: real): nat {
    if log == [] then 0
    else
      var n := log[|log| - 1];
      GrantsIn(log[..|log| - 1], pair, from, to) + One(n.Grant? && Within(pair, n.pair, n.at, from, to))
  }

  /** Resyncs that hold a grant from the window they have not yet spent. */
  function Unspent(c: Control, pair: Option<string>, from: real, to: real): set<nat> {
    set i | i in c.tasks && c.tasks[i].phase.Cleared? && Within(pair, c.tasks[i].pair, c.tasks[i].phase.at, from, to)
  }

  ghost predicate Spending(c: Control, pair: Option<string>, from: real, to: real) {
    FetchesIn(c.log, pair, from, to) + |Unspent(c, pair, from, to)| <= GrantsIn(c.log, pair, from, to)
  }

  lemma CountPush(log: seq<Note>, n: Note, pair: Option<string>, from: real, to: real)
    ensures FetchesIn(log + [n], pair, from, to) == FetchesIn(log, pair, from, to) + One(n.Fetch? && Within(pair, n.pair, n.grantedAt, from, to))
    ensures GrantsIn(log + [n], pair, from, to) == GrantsIn(log, pair, from, to) + One(n.Grant? && Within(pair, n.pair, n.at, from, to))
  {
    assert (log + [n])[..|log|] == log;
  }

  lemma SubsetSize<T>(a: set<T>, b: set<T>)
    requires a <= b
    ensures |a| <= |b|
  {
    assert |b| == |a| + |b - a| by { assert b == a + (b - a); }
  }

  /** How a move changes the set of unspent grants. */
  lemma MoveUnspent(c: Control, m: Move, pair: Option<string>, from: real, to: real)
    requires OnePerPair(c) && Enabled(c, m)
    ensures var u, v := Unspent(c, pair, from, to), Unspent(Make(c, m), pair, from, to);
      if m.MEnter? && m.phase.Cleared? && Within(pair, c.tasks[m.id].pair, m.phase.at, from, to) then v == u + {m.id} && m.id !in u
      else if m.MEnter? && m.id in u then v == u - {m.id}
      else v <= u
  {
    match m
    case MOpen(p) =>
    case MHear(p) =>
    case MExpire(id) =>
    case MEnter(id, phase) =>
    case MClose(id, outcome) =>
    case MGap(p) =>
  }

  lemma MoveSpending(c: Control, m: Move, pair: Option<string>, from: real, to: real)
    requires OnePerPair(c) && Enabled(c, m) && Spending(c, pair, from, to)
    ensures Spending(Make(c, m), pair, from, to)
  {
    var d := Make(c, m);
    var u, v := Unspent(c, pair, from, to), Unspent(d, pair, from, to);
    MoveUnspent(c, m, pair, from, to);
    if v <= u { SubsetSize(v, u); }
    if |d.log| > |c.log| {
      var n := d.log[|c.log|];
      assert d.log == c.log + [n];
      CountPush(c.log, n, pair, from, to);
      assert n.Fetch? && Within(pair, n.pair, n.grantedAt, from, to) ==> m.MEnter? && m.id in u;
    }
  }

  lemma ReachSpending(c: Control, d: Control, pair: Option<string>, from: real, to: real)
    requires OnePerPair(c) && Reaches(c, d) && Spending(c, pair, from, to)
    ensures Spending(d, pair, from, to)
  {
    if m :| Enabled(c, m) && d == Make(c, m) {
      MoveSpending(c, m, pair, from, to);
    } else if d != c {
      var m, n :| Enabled(c, m) && Enabled(Make(c, m), n) && d == Make(Make(c, m), n);
      MoveSpending(c, m, pair, from, to);
      MoveOnePerPair(c, m);
      MoveSpending(Make(c, m), n, pair, from, to);
    }
  }

  /** The log's grants are the budget's grants, and the budget is what its attempts make of it. */
  ghost predicate BudgetLogged(l: Limits, s: State, pair: Option<string>, from: real, to: real) {
    && s.budget == After(l, s.attempts)
    && GrantsIn(s.c.log, pair, from, to) == Grants(l, s.attempts, pair, from, to)
  }

  lemma StepBudgetLogged(l: Limits, s: State, step: Step, pair: Option<string>, from: real, to: real)
    requires BudgetLogged(l, s, pair, from, to)
    ensures BudgetLogged(l, Next(l, s, step), pair, from, to)
  {
    if step.OnBudget? && At(s.c, step.id, AwaitingBudget) {
      BudgetRoundLogged(l, s, step, pair, from, to);
    } else {
      StepGrantsSame(l, s, step, pair, from, to);
    }
  }

  lemma BudgetRoundLogged(l: Limits, s: State, step: Step, pair: Option<string>, from: real, to: real)
    requires BudgetLogged(l, s, pair, from, to) && step.OnBudget? && At(s.c, step.id, AwaitingBudget)
    ensures BudgetLogged(l, Next(l, s, step), pair, from, to)
  {
    var a := Attempt(s.c.tasks[step.id].pair, step.now);
    AttemptPush(l, s.attempts, a, pair, from, to);
    RoundLog(l, s, step, a);
    if TryAcquire(s.budget, l.pairPerMin, a).granted {
      CountPush(s.c.log, Grant(step.id, a.pair, step.now), pair, from, to);
    } else {
      CountPush(s.c.log, Failed(step.id, a.pair), pair, from, to);
    }
  }

  /** What a round at the budget leaves in the state. */
  lemma RoundLog(l: Limits, s: State, step: Step, a: Attempt)
    requires step.OnBudget? && At(s.c, step.id, AwaitingBudget) && a == Attempt(s.c.tasks[step.id].pair, step.now)
    ensures var r, d := TryAcquire(s.budget, l.pairPerMin, a), Next(l, s, step);
      && d.budget == r.state && d.attempts == s.attempts + [a]
      && (if r.granted then d.c.log == s.c.log + [Grant(step.id, a.pair, step.now)]
          else d.c.log == s.c.log + [Failed(step.id, a.pair)] || d.c.log == s.c.log)
  {
  }

  lemma StepGrantsSame(l: Limits, s: State, step: Step, pair: Option<string>, from: real, to: real)
    requires step.OnBudget? ==> !At(s.c, step.id, AwaitingBudget)
    ensures GrantsIn(Next(l, s, step).c.log, pair, from, to) == GrantsIn(s.c.log, pair, from, to)
    ensures Next(l, s, step).budget == s.budget && Next(l, s, step).attempts == s.attempts
  {
    StepLogsNoGrant(l, s, step);
    NoGrantsAdded(s.c.log, Next(l, s, step).c.log, pair, from, to);
  }

  /** The later log only adds notes, none of them a grant. */
  ghost predicate AddsNoGrant(log: seq<Note>, later: seq<Note>) {
    log <= later && forall k | |log| <= k < |later| :: !later[k].Grant?
  }

  lemma StepLogsNoGrant(l: Limits, s: State, step: Step)
    requires step.OnBudget? ==> !At(s.c, step.id, AwaitingBudget)
    ensures AddsNoGrant(s.c.log, Next(l, s, step).c.log)
  {
  }

  lemma {:induction false} NoGrantsAdded(log: seq<Note>, later: seq<Note>, pair: Option<string>, from: real, to: real)
    requires AddsNoGrant(log, later)
    ensures GrantsIn(later, pair, from, to) == GrantsIn(log, pair, from, to)
    decreases |later|
  {
    if |later| > |log| {
      var n := |later| - 1;
      assert later == later[..n] + [later[n]];
      CountPush(later[..n], later[n], pair, from, to);
      NoGrantsAdded(log, later[..n], pair, from, to);
    } else {
      assert later == log;
    }
  }

  lemma {:induction false} FetchesNeverExceedGrants(l: Limits, steps: seq<Step>, pair: Option<string>, from: real, to: real)
    ensures Spending(Run(l, steps).c, pair, from, to) && BudgetLogged(l, Run(l, steps), pair, from, to)
  {
    if steps == [] {
      assert Unspent(Initial(l).c, pair, from, to) == {};
    } else {
      var s, step := Run(l, steps[..|steps| - 1]), steps[|steps| - 1];
      FetchesNeverExceedGrants(l, steps[..|steps| - 1], pair, from, to);
      EveryRunIsSafe(l, steps[..|steps| - 1]);
      StepsAreMoves(l, s, step);
      ReachSpending(s.c, Next(l, s, step).c, pair, from, to);
      StepBudgetLogged(l, s, step, pair, from, to);
    }
  }

  /** However resyncs interleave, the REST fetches granted within T seconds are at most perMin * (1 + T/60),
      over all pairs and for each pair. */
  lemma FetchRateBound(l: Limits, steps: seq<Step>, pair: Option<string>, from: real, to: real)
    requires l.globalPerMin >= 0.0 && l.pairPerMin >= 0.0 && l.start <= from <= to
    requires Timed(l, Run(l, steps).attempts)
    ensures FetchesIn(Run(l, steps).c.log, pair, from, to) as real <= MostGrants(PerMin(l, pair), (to - from) / 1000.0)
  {
    FetchesNeverExceedGrants(l, steps, pair, from, to);
    RateBound(l, Run(l, steps).attempts, pair, from, to);
  }
}
