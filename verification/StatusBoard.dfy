/** The status map and the event log of a running graph, shared by the engine's
    start, one supervisor per pipeline and the shutdown calls.  Publishing is
    two steps, an insert into the map and then an event, and anything may
    happen between them. */
module StatusBoard {
  import opened Common
  import opened Supervisor

  type Id = string

  /** What a pipeline's supervisor is doing; `last` is the last status it (or
      the engine, for Spawning) has published. */
  datatype Task =
    | Unstarted
    | Inserted
    | Announced
    | Resting(last: TaskStatus)
    | Publishing(last: TaskStatus, next: TaskStatus)
    | Finished(last: TaskStatus)

  datatype Event = Event(id: Id, status: TaskStatus)

  /** `handles`: join handles nobody has taken.  `calls`: for each shutdown call
      the pipelines it still waits for; a call returns Ok when none is left. */
  datatype State = State(ids: seq<Id>, started: nat, tasks: map<Id, Task>, statuses: map<Id, TaskStatus>,
                         events: seq<Event>, handles: seq<Id>, calls: seq<seq<Id>>)

  /** Insert and Send are a supervisor's publish, Finish the end of its task. */
  datatype Move =
    | EngineStep
    | Insert(id: Id, status: TaskStatus)
    | Send(id: Id)
    | Finish(id: Id)
    | Shutdown
    | Join(call: nat)

  predicate Enabled(s: State, move: Move) {
    match move
    case EngineStep => s.started < |s.ids| && s.ids[s.started] in s.tasks
    case Insert(id, status) => id in s.tasks && s.tasks[id].Resting? && MayFollow(s.tasks[id].last, status)
    case Send(id) => id in s.tasks && s.tasks[id].Publishing?
    case Finish(id) => id in s.tasks && s.tasks[id].Resting? && Terminal(s.tasks[id].last)
    // the handle to call it on exists once start has returned
    case Shutdown => s.started == |s.ids|
    case Join(c) => c < |s.calls| && s.calls[c] != [] && s.calls[c][0] in s.tasks && s.tasks[s.calls[c][0]].Finished?
  }

  /** The next pipeline's initial status in the map, its event, and its task. */
  function EngineNext(s: State): State
    requires Enabled(s, EngineStep)
  {
    var id := s.ids[s.started];
    match s.tasks[id]
    case Unstarted => s.(tasks := s.tasks[id := Inserted], statuses := s.statuses[id := Spawning])
    case Inserted => s.(tasks := s.tasks[id := Announced], events := s.events + [Event(id, Spawning)])
    case _ => s.(tasks := s.tasks[id := Resting(Spawning)], started := s.started + 1, handles := s.handles + [id])
  }

  function Apply(s: State, move: Move): State
    requires Enabled(s, move)
  {
    match move
    case EngineStep => EngineNext(s)
    case Insert(id, status) =>
      s.(tasks := s.tasks[id := Publishing(s.tasks[id].last, status)], statuses := s.statuses[id := status])
    case Send(id) =>
      var status := s.tasks[id].next;
      s.(tasks := s.tasks[id := Resting(status)], events := s.events + [Event(id, status)])
    case Finish(id) => s.(tasks := s.tasks[id := Finished(s.tasks[id].last)])
    case Shutdown => s.(handles := [], calls := s.calls + [s.handles])
    case Join(c) => s.(calls := s.calls[c := s.calls[c][1..]])
  }

  function Start(ids: seq<Id>): State {
    State(ids, 0, map id | id in ids :: Unstarted, map id | id in ids :: Spawning, [], [], [])
  }

  predicate Distinct(ids: seq<Id>) {
    forall i, j :: 0 <= i < j < |ids| ==> ids[i] != ids[j]
  }

  ghost predicate Initial(s: State) {
    Distinct(s.ids) && s == Start(s.ids)
  }

  function Run(s: State, moves: seq<Move>): Outcome<State>
    decreases |moves|
  {
    if moves == [] then Next(s)
    else if Enabled(s, moves[0]) then Run(Apply(s, moves[0]), moves[1..])
    else Disabled
  }

  // ------------------------------------------------------------------
  // Each pipeline's events and entry
  // ------------------------------------------------------------------

  /** The statuses published for one pipeline. */
  function Published(events: seq<Event>, id: Id): seq<TaskStatus> {
    if events == [] then []
    else
      var last := events[|events| - 1];
      Published(events[..|events| - 1], id) + if last.id == id then [last.status] else []
  }

  lemma PublishedOneMore(events: seq<Event>, e: Event, id: Id)
    ensures Published(events + [e], id) == Published(events, id) + if e.id == id then [e.status] else []
  {
    assert (events + [e])[..|events|] == events;
  }

  /** Spawning, and then statuses that may follow one another up to `last`. */
  ghost predicate Ends(statuses: seq<TaskStatus>, last: TaskStatus) {
    && statuses != [] && statuses[0] == Spawning
    && Path(Spawning, statuses[1..]) && Last(Spawning, statuses[1..]) == last
  }

  lemma EndsNext(statuses: seq<TaskStatus>, last: TaskStatus, next: TaskStatus)
    requires Ends(statuses, last) && MayFollow(last, next)
    ensures Ends(statuses + [next], next)
  {
    PathAppend(Spawning, statuses[1..], [next]);
    assert (statuses + [next])[1..] == statuses[1..] + [next];
  }

  ghost predicate TaskInv(task: Task, status: TaskStatus, published: seq<TaskStatus>) {
    match task
    case Unstarted => status == Spawning && published == []
    case Inserted => status == Spawning && published == []
    case Announced => status == Spawning && published == [Spawning]
    case Resting(last) => status == last && Ends(published, last)
    case Publishing(last, next) => status == next && MayFollow(last, next) && Ends(published, last)
    case Finished(last) => status == last && Terminal(last) && Ends(published, last)
  }

  ghost predicate BoardInv(s: State) {
    && s.tasks.Keys == s.statuses.Keys
    && forall id :: id in s.tasks ==> TaskInv(s.tasks[id], s.statuses[id], Published(s.events, id))
  }

  predicate IsUnspawned(task: Task) {
    task.Unstarted? || task.Inserted? || task.Announced?
  }

  ghost predicate SpawnInv(s: State) {
    && s.started <= |s.ids| && (s.calls != [] ==> s.started == |s.ids|)
    && (forall i :: 0 <= i < |s.ids| ==> s.ids[i] in s.tasks && (IsUnspawned(s.tasks[s.ids[i]]) <==> i >= s.started))
    && (forall i, j :: 0 <= i < j < |s.ids| ==> s.ids[i] != s.ids[j])
  }

  /** The handles the first call takes, if there is one yet. */
  function Awaited(s: State): seq<Id> {
    if s.calls == [] then s.handles else s.calls[0]
  }

  /** Whoever is spawned and has not finished will be waited for by the first
      call; later calls wait for nobody. */
  ghost predicate WaitInv(s: State) {
    && (forall id :: id in s.tasks && !IsUnspawned(s.tasks[id]) ==> s.tasks[id].Finished? || id in Awaited(s))
    && (s.calls != [] ==> s.handles == [])
    && (forall c :: 0 < c < |s.calls| ==> s.calls[c] == [])
  }

  ghost predicate JoinInv(s: State) {
    SpawnInv(s) && WaitInv(s)
  }

  lemma MoveKeepsBoard(s: State, move: Move)
    requires BoardInv(s) && SpawnInv(s) && Enabled(s, move)
    ensures BoardInv(Apply(s, move))
  {
    var s' := Apply(s, move);
    forall id | id in s'.tasks ensures TaskInv(s'.tasks[id], s'.statuses[id], Published(s'.events, id)) {
      MoveKeepsEntry(s, move, id);
    }
  }

  /** The pipeline whose task a move changes. */
  function Mover(s: State, move: Move): Option<Id>
    requires Enabled(s, move)
  {
    match move
    case EngineStep => Some(s.ids[s.started])
    case Insert(id, _) => Some(id)
    case Send(id) => Some(id)
    case Finish(id) => Some(id)
    case _ => None
  }

  lemma OthersUnpublished(s: State, move: Move, id: Id)
    requires Enabled(s, move) && Mover(s, move) != Some(id)
    ensures Published(Apply(s, move).events, id) == Published(s.events, id)
  {
    match move
    case EngineStep => PublishedOneMore(s.events, Event(s.ids[s.started], Spawning), id);
    case Send(other) => PublishedOneMore(s.events, Event(other, s.tasks[other].next), id);
    case _ =>
  }

  lemma OthersUntouched(s: State, move: Move, id: Id)
    requires s.tasks.Keys == s.statuses.Keys && Enabled(s, move) && id in s.tasks && Mover(s, move) != Some(id)
    ensures var s' := Apply(s, move);
      && id in s'.tasks && id in s'.statuses
      && s'.tasks[id] == s.tasks[id] && s'.statuses[id] == s.statuses[id]
      && Published(s'.events, id) == Published(s.events, id)
  {
    OthersUnpublished(s, move, id);
  }

  lemma EngineKeepsEntry(s: State)
    requires BoardInv(s) && Enabled(s, EngineStep) && IsUnspawned(s.tasks[s.ids[s.started]])
    ensures var s', id := Apply(s, EngineStep), s.ids[s.started];
      && id in s'.tasks && id in s'.statuses
      && TaskInv(s'.tasks[id], s'.statuses[id], Published(s'.events, id))
  {
    var id := s.ids[s.started];
    assert TaskInv(s.tasks[id], s.statuses[id], Published(s.events, id));
    PublishedOneMore(s.events, Event(id, Spawning), id);
    assert [Spawning][1..] == [];
  }

  lemma SendKeepsEntry(s: State, id: Id)
    requires BoardInv(s) && Enabled(s, Send(id))
    ensures var s' := Apply(s, Send(id));
      && id in s'.tasks && id in s'.statuses
      && TaskInv(s'.tasks[id], s'.statuses[id], Published(s'.events, id))
  {
    assert TaskInv(s.tasks[id], s.statuses[id], Published(s.events, id));
    PublishedOneMore(s.events, Event(id, s.tasks[id].next), id);
    EndsNext(Published(s.events, id), s.tasks[id].last, s.tasks[id].next);
  }

  lemma MoveKeepsEntry(s: State, move: Move, id: Id)
    requires BoardInv(s) && SpawnInv(s) && Enabled(s, move) && id in s.tasks
    ensures var s' := Apply(s, move);
      && id in s'.tasks && id in s'.statuses
      && TaskInv(s'.tasks[id], s'.statuses[id], Published(s'.events, id))
  {
    assert TaskInv(s.tasks[id], s.statuses[id], Published(s.events, id));
    if Mover(s, move) != Some(id) {
      OthersUntouched(s, move, id);
    } else if move.EngineStep? {
      EngineKeepsEntry(s);
    } else if move.Send? {
      SendKeepsEntry(s, id);
    } else {
      assert Apply(s, move).events == s.events;
    }
  }

  lemma MoveKeepsSpawns(s: State, move: Move)
    requires SpawnInv(s) && Enabled(s, move)
    ensures SpawnInv(Apply(s, move))
  {
  }

  lemma MoveKeepsWaits(s: State, move: Move)
    requires SpawnInv(s) && WaitInv(s) && Enabled(s, move)
    ensures WaitInv(Apply(s, move))
  {
    var s' := Apply(s, move);
    match move
    case EngineStep =>
      assert s.calls == [];
      forall id | id in s'.tasks && !IsUnspawned(s'.tasks[id])
        ensures s'.tasks[id].Finished? || id in Awaited(s')
      {
        assert id == s.ids[s.started] || id in s.handles || s.tasks[id].Finished?;
      }
    case Join(c) =>
      assert c == 0;
      assert s.calls[0] == [s.calls[0][0]] + s'.calls[0];
    case _ =>
  }

  lemma InitialInv(s: State)
    requires Initial(s)
    ensures BoardInv(s) && JoinInv(s)
  {
  }

  lemma {:induction false} RunKeepsInv(s: State, moves: seq<Move>)
    requires BoardInv(s) && JoinInv(s)
    ensures Run(s, moves).Next? ==> BoardInv(Run(s, moves).state) && JoinInv(Run(s, moves).state)
    decreases |moves|
  {
    if moves == [] || !Enabled(s, moves[0]) {
    } else {
      MoveKeepsBoard(s, moves[0]);
      MoveKeepsSpawns(s, moves[0]);
      MoveKeepsWaits(s, moves[0]);
      RunKeepsInv(Apply(s, moves[0]), moves[1..]);
    }
  }

  /** In every interleaving of any number of pipelines, each pipeline's events
      are a prefix of Spawning (Running Stalled Recovering)* Running?
      (Stopped | Failed), and outside a publish its entry in the map is the last
      of them. */
  lemma EventsAndEntriesAgree(start: State, moves: seq<Move>, id: Id)
    requires Initial(start) && Run(start, moves).Next? && id in start.ids
    ensures var s := Run(start, moves).state; var published := Published(s.events, id);
      && id in s.tasks && id in s.statuses
      && (exists rest :: Lifetime(rest) && published <= [Spawning] + rest)
      && (!s.tasks[id].Publishing? && published != [] ==> s.statuses[id] == published[|published| - 1])
      && (published == [] ==> s.statuses[id] == Spawning)
  {
    InitialInv(start);
    RunKeepsInv(start, moves);
    IdsStay(start, moves);
    var s := Run(start, moves).state;
    EntryIsLegal(s.tasks[id], s.statuses[id], Published(s.events, id));
  }

  lemma EntryIsLegal(task: Task, status: TaskStatus, published: seq<TaskStatus>)
    requires TaskInv(task, status, published)
    ensures exists rest :: Lifetime(rest) && published <= [Spawning] + rest
    ensures !task.Publishing? && published != [] ==> status == published[|published| - 1]
    ensures published == [] ==> status == Spawning
  {
    if published == [] {
      assert Lifetime([Stopped]);
    } else {
      assert published == [Spawning] + published[1..];
      PathsAreLifetimes(published[1..]);
      var rest :| Lifetime(rest) && published[1..] <= rest;
      assert published <= [Spawning] + rest;
    }
  }

  lemma {:induction false} IdsStay(s: State, moves: seq<Move>)
    requires Run(s, moves).Next?
    ensures Run(s, moves).state.ids == s.ids
    decreases |moves|
  {
    if moves == [] {
    } else {
      IdsStay(Apply(s, moves[0]), moves[1..]);
    }
  }

  /** The moves with which one pipeline publishes a list of statuses. */
  function Plays(id: Id, trace: seq<TaskStatus>): seq<Move> {
    if trace == [] then [] else [Insert(id, trace[0]), Send(id)] + Plays(id, trace[1..])
  }

  lemma PlayOne(s: State, id: Id, status: TaskStatus)
    requires id in s.tasks && s.tasks[id].Resting? && MayFollow(s.tasks[id].last, status)
    ensures var r := Run(s, [Insert(id, status), Send(id)]);
      && r.Next? && id in r.state.tasks && r.state.tasks[id] == Resting(status)
      && Published(r.state.events, id) == Published(s.events, id) + [status]
      && r.state.calls == s.calls && r.state.ids == s.ids
  {
    var a := Apply(s, Insert(id, status));
    var b := Apply(a, Send(id));
    assert [Send(id)][1..] == [] && [Insert(id, status), Send(id)][1..] == [Send(id)];
    assert Run(b, []) == Next(b) && Run(a, [Send(id)]) == Next(b);
    PublishedOneMore(s.events, Event(id, status), id);
  }

  lemma {:induction false} PlayTrace(s: State, id: Id, trace: seq<TaskStatus>)
    requires id in s.tasks && s.tasks[id].Resting? && Path(s.tasks[id].last, trace)
    ensures var r := Run(s, Plays(id, trace));
      && r.Next? && id in r.state.tasks && r.state.tasks[id] == Resting(Last(s.tasks[id].last, trace))
      && Published(r.state.events, id) == Published(s.events, id) + trace
      && r.state.calls == s.calls && r.state.ids == s.ids
    decreases |trace|
  {
    if trace == [] {
      assert Published(s.events, id) + [] == Published(s.events, id);
    } else {
      PlayOne(s, id, trace[0]);
      var s' := Run(s, [Insert(id, trace[0]), Send(id)]).state;
      PlayTrace(s', id, trace[1..]);
      RunAppend(s, [Insert(id, trace[0]), Send(id)], Plays(id, trace[1..]));
      assert Published(s.events, id) + [trace[0]] + trace[1..] == Published(s.events, id) + trace;
    }
  }

  /** On the board, from any state in which it has been spawned, a supervisor
      can publish exactly what it does on its own, and then finish. */
  lemma SupervisedOnBoard(s: State, id: Id, policy: RecoveryPolicy, attempts: seq<Attempt>)
    requires id in s.tasks && s.tasks[id] == Resting(Spawning) && Supervised(policy, 0, attempts).finished
    ensures var trace := Supervised(policy, 0, attempts).trace;
      var r := Run(s, Plays(id, trace) + [Finish(id)]);
      && r.Next? && id in r.state.tasks && r.state.tasks[id] == Finished(Last(Spawning, trace))
      && Published(r.state.events, id) == Published(s.events, id) + trace
  {
    var trace := Supervised(policy, 0, attempts).trace;
    TraceIsLegal(policy, 0, attempts, Spawning);
    PlayTrace(s, id, trace);
    var played := Run(s, Plays(id, trace)).state;
    RunAppend(s, Plays(id, trace), [Finish(id)]);
    assert [Finish(id)][1..] == [];
    assert Run(Apply(played, Finish(id)), []) == Next(Apply(played, Finish(id)));
  }

  // ------------------------------------------------------------------
  // Shutdown
  // ------------------------------------------------------------------

  /** Whatever happens afterwards, a finished pipeline's entry and events stay. */
  lemma {:induction false} FinishedIsFinal(s: State, moves: seq<Move>, id: Id)
    requires BoardInv(s) && JoinInv(s)
    requires id in s.tasks && s.tasks[id].Finished? && Run(s, moves).Next?
    ensures var s' := Run(s, moves).state;
      && id in s'.statuses && s'.statuses[id] == s.statuses[id] && Terminal(s'.statuses[id])
      && Published(s'.events, id) == Published(s.events, id)
    decreases |moves|
  {
    if moves == [] {
    } else {
      MoveKeepsBoard(s, moves[0]);
      MoveKeepsSpawns(s, moves[0]);
      MoveKeepsWaits(s, moves[0]);
      OthersUntouched(s, moves[0], id);
      FinishedIsFinal(Apply(s, moves[0]), moves[1..], id);
    }
  }

  ghost predicate Returned(s: State, call: nat) {
    call < |s.calls| && s.calls[call] == []
  }

  /** Once the first shutdown call has returned Ok, every entry is terminal and
      no later step changes one. */
  lemma ShutdownMeansStopped(start: State, moves: seq<Move>, more: seq<Move>, id: Id)
    requires Initial(start) && Run(start, moves).Next? && id in start.ids
    requires Returned(Run(start, moves).state, 0)
    requires Run(Run(start, moves).state, more).Next?
    ensures var s, s' := Run(start, moves).state, Run(Run(start, moves).state, more).state;
      && id in s.statuses && Terminal(s.statuses[id])
      && id in s'.statuses && s'.statuses[id] == s.statuses[id]
      && Published(s'.events, id) == Published(s.events, id)
  {
    InitialInv(start);
    RunKeepsInv(start, moves);
    IdsStay(start, moves);
    var s := Run(start, moves).state;
    var i :| 0 <= i < |s.ids| && s.ids[i] == id;
    assert s.tasks[s.ids[i]].Finished?;
    FinishedIsFinal(s, [], id);
    FinishedIsFinal(s, more, id);
  }

  /** When every pipeline has finished, a call that waits returns after one
      step for each handle it holds. */
  lemma {:induction false} JoinsEnd(s: State, call: nat) returns (moves: seq<Move>)
    requires call < |s.calls|
    requires forall i :: 0 <= i < |s.calls[call]| ==> s.calls[call][i] in s.tasks && s.tasks[s.calls[call][i]].Finished?
    ensures |moves| == |s.calls[call]| && Run(s, moves).Next? && Returned(Run(s, moves).state, call)
    decreases |s.calls[call]|
  {
    if s.calls[call] == [] {
      moves := [];
    } else {
      var s' := Apply(s, Join(call));
      var rest := JoinsEnd(s', call);
      moves := [Join(call)] + rest;
      assert moves[1..] == rest;
    }
  }

  // ------------------------------------------------------------------
  // Later shutdown calls
  // ------------------------------------------------------------------

  lemma {:induction false} RunAppend(s: State, a: seq<Move>, b: seq<Move>)
    requires Run(s, a).Next?
    ensures Run(s, a + b) == Run(Run(s, a).state, b)
    decreases |a|
  {
    if a == [] {
      assert a + b == b;
    } else {
      assert (a + b)[1..] == a[1..] + b;
      RunAppend(Apply(s, a[0]), a[1..], b);
    }
  }

  /** The engine has started the first `s.started` pipelines and nothing else
      has happened. */
  ghost predicate Booting(s: State) {
    && s.started <= |s.ids| && s.calls == []
    && (forall i, j :: 0 <= i < j < |s.ids| ==> s.ids[i] != s.ids[j])
    && forall i :: 0 <= i < |s.ids| ==>
         s.ids[i] in s.tasks && s.tasks[s.ids[i]] == if i < s.started then Resting(Spawning) else Unstarted
  }

  lemma StartOne(s: State)
    requires Booting(s) && s.started < |s.ids|
    ensures var r := Run(s, [EngineStep, EngineStep, EngineStep]);
      r.Next? && Booting(r.state) && r.state.ids == s.ids && r.state.started == s.started + 1
  {
    var a := Apply(s, EngineStep);
    var b := Apply(a, EngineStep);
    var c := Apply(b, EngineStep);
    assert Run(c, []) == Next(c);
    assert [EngineStep][1..] == [];
    assert Run(b, [EngineStep]) == Next(c);
    assert [EngineStep, EngineStep][1..] == [EngineStep];
    assert [EngineStep, EngineStep, EngineStep][1..] == [EngineStep, EngineStep];
  }

  lemma {:induction false} StartAll(s: State) returns (moves: seq<Move>)
    requires Booting(s)
    ensures var r := Run(s, moves);
      r.Next? && Booting(r.state) && r.state.ids == s.ids && r.state.started == |s.ids|
    decreases |s.ids| - s.started
  {
    if s.started == |s.ids| {
      return [];
    }
    var one := [EngineStep, EngineStep, EngineStep];
    StartOne(s);
    var rest := StartAll(Run(s, one).state);
    RunAppend(s, one, rest);
    return one + rest;
  }

  lemma {:induction false} CallAgain(s: State, n: nat) returns (moves: seq<Move>)
    requires s.started == |s.ids|
    ensures var r := Run(s, moves);
      r.Next? && |r.state.calls| == |s.calls| + n && r.state.ids == s.ids && r.state.tasks == s.tasks
    decreases n
  {
    if n == 0 {
      return [];
    }
    var rest := CallAgain(Apply(s, Shutdown), n - 1);
    moves := [Shutdown] + rest;
    assert moves[1..] == rest;
  }

  ghost predicate AllStopped(s: State) {
    forall i :: 0 <= i < |s.ids| ==> s.ids[i] in s.statuses && Terminal(s.statuses[s.ids[i]])
  }

  /** If the call has returned Ok, every pipeline is stopped. */
  ghost predicate Honest(start: State, moves: seq<Move>, call: nat) {
    Run(start, moves).Next? && Returned(Run(start, moves).state, call) ==> AllStopped(Run(start, moves).state)
  }

  lemma NotYetStopped(s: State)
    requires BoardInv(s) && WaitInv(s) && s.ids != []
    requires s.ids[0] in s.tasks && s.tasks[s.ids[0]] == Resting(Spawning)
    ensures !AllStopped(s)
    ensures forall c :: 0 < c < |s.calls| ==> Returned(s, c)
  {
    assert TaskInv(s.tasks[s.ids[0]], s.statuses[s.ids[0]], Published(s.events, s.ids[0]));
  }

  lemma LaterCallReturnsEarly(start: State, call: nat) returns (moves: seq<Move>)
    requires Initial(start) && start.ids != [] && call > 0
    ensures !Honest(start, moves, call)
  {
    var boot := StartAll(start);
    var booted := Run(start, boot).state;
    var calls := CallAgain(booted, call + 1);
    RunAppend(start, boot, calls);
    moves := boot + calls;
    InitialInv(start);
    RunKeepsInv(start, moves);
    NotYetStopped(Run(start, moves).state);
  }

  /** A shutdown call vouches for all pipelines having stopped exactly when it
      is the first: the handles are then gone, and a later call, on a clone of
      the runtime handle, returns Ok at once. */
  lemma OnlyTheFirstCallWaits(start: State, call: nat)
    requires Initial(start) && start.ids != []
    ensures (forall moves :: Honest(start, moves, call)) <==> call == 0
  {
    if call == 0 {
      forall moves ensures Honest(start, moves, 0) {
        if Run(start, moves).Next? && Returned(Run(start, moves).state, 0) {
          var s := Run(start, moves).state;
          IdsStay(start, moves);
          forall i | 0 <= i < |s.ids| ensures s.ids[i] in s.statuses && Terminal(s.statuses[s.ids[i]]) {
            ShutdownMeansStopped(start, moves, [], s.ids[i]);
          }
        }
      }
    } else {
      var moves := LaterCallReturnsEarly(start, call);
    }
  }
}
