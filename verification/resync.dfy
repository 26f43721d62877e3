/** The resync protocol, cut at its awaits: every atomic segment is one step, in any interleaving. */
module Resync {
  import opened Common
  import opened OrderBooks
  import opened RestBudgets

  /** What the snapshot listener of a running resync has resolved to. */
  datatype Heard = Nothing | GotFrame | TimedOut

  /** The await a running resync is suspended at. */
  datatype Phase = Subscribing | AwaitingSnapshot | AwaitingBudget | Cleared(at: real) | Fetching

  datatype Task = Task(pair: string, phase: Phase, heard: Heard)

  datatype Note =
    | Started(id: nat, pair: string)
    | SnapshotApplied(pair: string)
    | GapSeen(pair: string)
    | Resynced(id: nat, pair: string, viaRest: bool)
    | Failed(id: nat, pair: string)
    | Grant(id: nat, pair: string, at: real)
    | Fetch(id: nat, pair: string, grantedAt: real)

  /** The in-flight set, the suspended resyncs, and a log of what was emitted or called. */
  datatype Control = Control(inFlight: set<string>, tasks: map<nat, Task>, next: nat, log: seq<Note>)

  // ------------------------------------------------------------ moves of the control part

  function Open(c: Control, pair: string): Control {
    if pair in c.inFlight then c
    else Control(c.inFlight + {pair}, c.tasks[c.next := Task(pair, Subscribing, Nothing)], c.next + 1,
                 c.log + [Started(c.next, pair)])
  }

  /** A snapshot was applied: unresolved listeners of the pair resolve with it. */
  function Hear(c: Control, pair: string): Control {
    c.(tasks := map id | id in c.tasks ::
         if c.tasks[id].pair == pair && c.tasks[id].heard == Nothing
         then c.tasks[id].(heard := GotFrame) else c.tasks[id],
       log := c.log + [SnapshotApplied(pair)])
  }

  function Expire(c: Control, id: nat): Control {
    if id in c.tasks && c.tasks[id].heard == Nothing
    then c.(tasks := c.tasks[id := c.tasks[id].(heard := TimedOut)]) else c
  }

  function Enter(c: Control, id: nat, phase: Phase): Control
    requires id in c.tasks
  {
    var t := c.tasks[id];
    Control(c.inFlight, c.tasks[id := t.(phase := phase)], c.next,
      match phase
      case Cleared(at) => c.log + [Grant(id, t.pair, at)]
      case Fetching => c.log + [Fetch(id, t.pair, if t.phase.Cleared? then t.phase.at else 0.0)]
      case _ => c.log)
  }

  function Close(c: Control, id: nat, outcome: Note): Control
    requires id in c.tasks
  {
    Control(c.inFlight - {c.tasks[id].pair}, c.tasks - {id}, c.next, c.log + [outcome])
  }

  function Remark(c: Control, note: Note): Control {
    c.(log := c.log + [note])
  }

  // ------------------------------------------------------------ the atomic segments

  /** `attempts` records the budget rounds of the run; the program itself keeps the other fields. */
  datatype State = State(books: Books, budget: BudgetState, c: Control, attempts: seq<Attempt>)

  function Initial(l: Limits): State {
    State(map[], After(l, []), Control({}, map[], 0, []), [])
  }

  /** A request up to its first await. */
  function Request(s: State, pair: string): State {
    if pair in s.c.inFlight then s
    else s.(books := if pair in s.books then s.books[pair := s.books[pair].(state := Resyncing)] else s.books,
            c := Open(s.c, pair))
  }

  function Snapshot(s: State, pair: string, f: Frame): State {
    s.(books := BooksAfterSnapshot(s.books, pair, f), c := Hear(s.c, pair))
  }

  /** A delta reaches the manager; a gap makes the controller request a resync at once. */
  function Delta(s: State, pair: string, f: Frame): State {
    var r := BooksAfterDelta(s.books, pair, f);
    var s' := s.(books := r.books);
    if r.gap == None then s' else Request(s'.(c := Remark(s.c, GapSeen(pair))), pair)
  }

  predicate At(c: Control, id: nat, phase: Phase) {
    id in c.tasks && c.tasks[id].phase == phase
  }

  function Subscribed(c: Control, id: nat, ok: bool): Control {
    if !At(c, id, Subscribing) then c
    else if ok then Enter(c, id, AwaitingSnapshot)
    else Close(c, id, Failed(id, c.tasks[id].pair))
  }

  function ListenerResolved(c: Control, id: nat): Control {
    if !At(c, id, AwaitingSnapshot) then c
    else match c.tasks[id].heard
      case Nothing => c
      case GotFrame => Close(c, id, Resynced(id, c.tasks[id].pair, false))
      case TimedOut => Enter(c, id, AwaitingBudget)
  }

  /** One round of the acquire loop of a resync whose listener timed out. */
  function BudgetRound(s: State, pairPerMin: real, id: nat, now: real, deadline: real): State {
    if !At(s.c, id, AwaitingBudget) then s
    else
      var a := Attempt(s.c.tasks[id].pair, now);
      var r := TryAcquire(s.budget, pairPerMin, a);
      State(s.books, r.state,
        if r.granted then Enter(s.c, id, Cleared(now))
        else if now >= deadline then Close(s.c, id, Failed(id, a.pair))
        else s.c,
        s.attempts + [a])
  }

  function StartFetch(c: Control, id: nat): Control {
    if id in c.tasks && c.tasks[id].phase.Cleared? then Enter(c, id, Fetching) else c
  }

  function FetchReply(s: State, id: nat, reply: Option<Frame>): State {
    if !At(s.c, id, Fetching) then s
    else
      var pair := s.c.tasks[id].pair;
      if reply == None then s.(c := Close(s.c, id, Failed(id, pair)))
      else
        var s' := Snapshot(s, pair, reply.value);
        s'.(c := Close(s'.c, id, Resynced(id, pair, true)))
  }

  datatype Step =
    | OnRequest(pair: string)
    | OnSnapshot(pair: string, frame: Frame)
    | OnDelta(pair: string, frame: Frame)
    | OnTimer(id: nat)
    | OnSubscribed(id: nat, ok: bool)
    | OnListener(id: nat)
    | OnBudget(id: nat, now: real, deadline: real)
    | OnStartFetch(id: nat)
    | OnFetchReply(id: nat, reply: Option<Frame>)

  function Next(l: Limits, s: State, step: Step): State {
    match step
    case OnRequest(pair) => Request(s, pair)
    case OnSnapshot(pair, f) => Snapshot(s, pair, f)
    case OnDelta(pair, f) => Delta(s, pair, f)
    case OnTimer(id) => s.(c := Expire(s.c, id))
    case OnSubscribed(id, ok) => s.(c := Subscribed(s.c, id, ok))
    case OnListener(id) => s.(c := ListenerResolved(s.c, id))
    case OnBudget(id, now, deadline) => BudgetRound(s, l.pairPerMin, id, now, deadline)
    case OnStartFetch(id) => s.(c := StartFetch(s.c, id))
    case OnFetchReply(id, reply) => FetchReply(s, id, reply)
  }

  function Run(l: Limits, steps: seq<Step>): State {
    if steps == [] then Initial(l) else Next(l, Run(l, steps[..|steps| - 1]), steps[|steps| - 1])
  }

  // ------------------------------------------------------------ what gaps and snapshots do to a book

  /** Right after a gap the book waits for a snapshot, or the pair's resync was already in flight. */
  lemma AfterGap(s: State, pair: string, f: Frame)
    requires BooksAfterDelta(s.books, pair, f).gap.Some?
    ensures pair in Delta(s, pair, f).books && pair in Delta(s, pair, f).c.inFlight
    ensures Delta(s, pair, f).books[pair].state == Resyncing || pair in s.c.inFlight
  {
    assert pair in BooksAfterDelta(s.books, pair, f).books;
  }

  /** No delta changes a book that waits for its first or its next snapshot, nor anything else. */
  lemma WaitingBookIgnoresDeltas(s: State, pair: string, f: Frame)
    requires pair !in s.books || s.books[pair].state == Init || s.books[pair].state == Resyncing
    ensures Delta(s, pair, f) == s
  {
    if pair in s.books { assert s.books[pair := s.books[pair]] == s.books; }
  }

  /** Only a snapshot for the pair, from the socket or from a REST reply, takes a book out of waiting. */
  lemma OnlySnapshotsResume(l: Limits, s: State, step: Step, pair: string)
    requires pair in s.books && s.books[pair].state == Resyncing
    ensures pair in Next(l, s, step).books
    ensures Next(l, s, step).books[pair].state != Resyncing ==>
      || (step.OnSnapshot? && step.pair == pair)
      || (step.OnFetchReply? && At(s.c, step.id, Fetching) && s.c.tasks[step.id].pair == pair && step.reply.Some?)
  {
    if step.OnDelta? && step.pair == pair { WaitingBookIgnoresDeltas(s, pair, step.frame); }
  }

  // ------------------------------------------------------------ every step is a few control moves

  datatype Move =
    | MOpen(pair: string)
    | MHear(pair: string)
    | MExpire(id: nat)
    | MEnter(id: nat, phase: Phase)
    | MClose(id: nat, outcome: Note)
    | MGap(pair: string)

  /** The phases follow each other in this order only. */
  predicate Follows(before: Phase, after: Phase) {
    match after
    case Subscribing => false
    case AwaitingSnapshot => before == Subscribing
    case AwaitingBudget => before == AwaitingSnapshot
    case Cleared(_) => before == AwaitingBudget
    case Fetching => before.Cleared?
  }

  /** `m` can be made; a success is reported only by a resync that has heard a snapshot. */
  ghost predicate Enabled(c: Control, m: Move) {
    match m
    case MEnter(id, phase) => id in c.tasks && Follows(c.tasks[id].phase, phase)
    case MClose(id, outcome) =>
      && id in c.tasks
      && (|| outcome == Failed(id, c.tasks[id].pair)
          || (outcome == Resynced(id, c.tasks[id].pair, false) && c.tasks[id].heard == GotFrame)
          || (outcome == Resynced(id, c.tasks[id].pair, true) && c.log != [] && c.log[|c.log| - 1] == SnapshotApplied(c.tasks[id].pair)))
    case _ => true
  }

  ghost function Make(c: Control, m: Move): Control
    requires Enabled(c, m)
  {
    match m
    case MOpen(pair) => Open(c, pair)
    case MHear(pair) => Hear(c, pair)
    case MExpire(id) => Expire(c, id)
    case MEnter(id, phase) => Enter(c, id, phase)
    case MClose(id, outcome) => Close(c, id, outcome)
    case MGap(pair) => Remark(c, GapSeen(pair))
  }

  /** From `c` some enabled moves lead to `d`, at most two. */
  ghost predicate Reaches(c: Control, d: Control) {
    || d == c
    || (exists m :: Enabled(c, m) && d == Make(c, m))
    || (exists m, n :: Enabled(c, m) && Enabled(Make(c, m), n) && d == Make(Make(c, m), n))
  }

  lemma StepsAreMoves(l: Limits, s: State, step: Step)
    ensures Reaches(s.c, Next(l, s, step).c)
  {
    match step
    case OnRequest(pair) => MarketStepsAreMoves(l, s, step);
    case OnSnapshot(pair, f) => MarketStepsAreMoves(l, s, step);
    case OnDelta(pair, f) => MarketStepsAreMoves(l, s, step);
    case OnTimer(id) => MarketStepsAreMoves(l, s, step);
    case OnFetchReply(id, reply) => ReplyIsMoves(l, s, step);
    case _ => TaskStepsAreMoves(l, s, step);
  }

  lemma MarketStepsAreMoves(l: Limits, s: State, step: Step)
    requires step.OnRequest? || step.OnSnapshot? || step.OnDelta? || step.OnTimer?
    ensures Reaches(s.c, Next(l, s, step).c)
  {
    var c, d := s.c, Next(l, s, step).c;
    match step
    case OnRequest(pair) => assert Enabled(c, MOpen(pair)) && (d == c || d == Make(c, MOpen(pair)));
    case OnSnapshot(pair, f) => assert Enabled(c, MHear(pair)) && d == Make(c, MHear(pair));
    case OnDelta(pair, f) =>
      if BooksAfterDelta(s.books, pair, f).gap.Some? {
        assert Enabled(c, MGap(pair));
        var c' := Make(c, MGap(pair));
        assert Enabled(c', MOpen(pair)) && d == Make(c', MOpen(pair));
      }
    case OnTimer(id) => assert Enabled(c, MExpire(id)) && d == Make(c, MExpire(id));
  }

  lemma TaskStepsAreMoves(l: Limits, s: State, step: Step)
    requires step.OnSubscribed? || step.OnListener? || step.OnBudget? || step.OnStartFetch?
    ensures Reaches(s.c, Next(l, s, step).c)
  {
    var c, d := s.c, Next(l, s, step).c;
    match step
    case OnSubscribed(id, ok) =>
      if At(c, id, Subscribing) {
        var m := if ok then MEnter(id, AwaitingSnapshot) else MClose(id, Failed(id, c.tasks[id].pair));
        assert Enabled(c, m) && d == Make(c, m);
      }
    case OnListener(id) =>
      if At(c, id, AwaitingSnapshot) && c.tasks[id].heard != Nothing {
        var m := if c.tasks[id].heard == GotFrame then MClose(id, Resynced(id, c.tasks[id].pair, false)) else MEnter(id, AwaitingBudget);
        assert Enabled(c, m) && d == Make(c, m);
      }
    case OnBudget(id, now, deadline) =>
      if At(c, id, AwaitingBudget) && d != c {
        var m := if id in d.tasks then MEnter(id, Cleared(now)) else MClose(id, Failed(id, c.tasks[id].pair));
        assert Enabled(c, m) && d == Make(c, m);
      }
    case OnStartFetch(id) =>
      if id in c.tasks && c.tasks[id].phase.Cleared? {
        assert Enabled(c, MEnter(id, Fetching)) && d == Make(c, MEnter(id, Fetching));
      }
  }

  lemma ReplyIsMoves(l: Limits, s: State, step: Step)
    requires step.OnFetchReply?
    ensures Reaches(s.c, Next(l, s, step).c)
  {
    var c, d, id := s.c, Next(l, s, step).c, step.id;
    if At(c, id, Fetching) {
      var pair := c.tasks[id].pair;
      if step.reply == None {
        var m := MClose(id, Failed(id, pair));
        assert Enabled(c, m) && d == Make(c, m);
      } else {
        assert Enabled(c, MHear(pair));
        var c' := Make(c, MHear(pair));
        var n := MClose(id, Resynced(id, pair, true));
        assert Enabled(c', n) && d == Make(c', n);
      }
    }
  }

  // ------------------------------------------------------------ the mutable orchestrator

  class ResyncOrchestrator {
    const limits: Limits
    var books: Books
    var budget: BudgetState
    var inFlight: set<string>
    var tasks: map<nat, Task>
    var next: nat
    var log: seq<Note>
    var attempts: seq<Attempt>

    constructor (l: Limits)
      ensures limits == l && View() == Initial(l)
    {
      limits, books, budget := l, map[], After(l, []);
      inFlight, tasks, next, log, attempts := {}, map[], 0, [], [];
    }

    function View(): State
      reads this
    {
      State(books, budget, Control(inFlight, tasks, next, log), attempts)
    }

    method RequestResync(pair: string)
      modifies this
      ensures View() == Request(old(View()), pair)
    {
      if pair in inFlight { return; }
      inFlight := inFlight + {pair};
      if pair in books { books := books[pair := books[pair].(state := Resyncing)]; }
      tasks := tasks[next := Task(pair, Subscribing, Nothing)];
      log := log + [Started(next, pair)];
      next := next + 1;
    }

    method OnDepthSnapshot(pair: string, f: Frame)
      modifies this
      ensures View() == Snapshot(old(View()), pair, f)
    {
      books := BooksAfterSnapshot(books, pair, f);
      tasks := map id | id in tasks ::
        if tasks[id].pair == pair && tasks[id].heard == Nothing then tasks[id].(heard := GotFrame) else tasks[id];
      log := log + [SnapshotApplied(pair)];
    }

    method OnDepthDelta(pair: string, f: Frame)
      modifies this
      ensures View() == Delta(old(View()), pair, f)
    {
      var r := BooksAfterDelta(books, pair, f);
      books := r.books;
      if r.gap.Some? {
        log := log + [GapSeen(pair)];
        RequestResync(pair);
      }
    }

    method ListenerTimeout(id: nat)
      modifies this
      ensures View() == old(View()).(c := Expire(old(View()).c, id))
    {
      if id in tasks && tasks[id].heard == Nothing { tasks := tasks[id := tasks[id].(heard := TimedOut)]; }
    }

    method Conclude(id: nat, outcome: Note)
      requires id in tasks
      modifies this
      ensures View() == old(View()).(c := Close(old(View()).c, id, outcome))
    {
      log := log + [outcome];
      inFlight := inFlight - {tasks[id].pair};
      tasks := tasks - {id};
    }

    method AfterResubscribe(id: nat, ok: bool)
      modifies this
      ensures View() == old(View()).(c := Subscribed(old(View()).c, id, ok))
    {
      if id !in tasks || tasks[id].phase != Subscribing { return; }
      if ok {
        tasks := tasks[id := tasks[id].(phase := AwaitingSnapshot)];
      } else {
        Conclude(id, Failed(id, tasks[id].pair));
      }
    }

    method AfterListener(id: nat)
      modifies this
      ensures View() == old(View()).(c := ListenerResolved(old(View()).c, id))
    {
      if id !in tasks || tasks[id].phase != AwaitingSnapshot { return; }
      match tasks[id].heard {
        case Nothing =>
        case GotFrame => Conclude(id, Resynced(id, tasks[id].pair, false));
        case TimedOut => tasks := tasks[id := tasks[id].(phase := AwaitingBudget)];
      }
    }

    method AfterBudgetRound(id: nat, now: real, deadline: real)
      modifies this
      ensures View() == BudgetRound(old(View()), limits.pairPerMin, id, now, deadline)
    {
      if id !in tasks || tasks[id].phase != AwaitingBudget { return; }
      var pair := tasks[id].pair;
      var r := TryAcquire(budget, limits.pairPerMin, Attempt(pair, now));
      budget, attempts := r.state, attempts + [Attempt(pair, now)];
      if r.granted {
        tasks := tasks[id := tasks[id].(phase := Cleared(now))];
        log := log + [Grant(id, pair, now)];
      } else if now >= deadline {
        Conclude(id, Failed(id, pair));
      }
    }

    method CallRest(id: nat)
      modifies this
      ensures View() == old(View()).(c := StartFetch(old(View()).c, id))
    {
      if id !in tasks || !tasks[id].phase.Cleared? { return; }
      log := log + [Fetch(id, tasks[id].pair, tasks[id].phase.at)];
      tasks := tasks[id := tasks[id].(phase := Fetching)];
    }

    method AfterFetch(id: nat, reply: Option<Frame>)
      modifies this
      ensures View() == FetchReply(old(View()), id, reply)
    {
      if id !in tasks || tasks[id].phase != Fetching { return; }
      var pair := tasks[id].pair;
      if reply.Some? {
        OnDepthSnapshot(pair, reply.value);
        Conclude(id, Resynced(id, pair, true));
      } else {
        Conclude(id, Failed(id, pair));
      }
    }
  }
}
