/**
 * The process from start to the end of the shutdown: the three tracked tasks and the shutdown sequence, taking
 * steps in any order. A timeout may fire at any step; an await completes only when what it waits for has happened.
 */
module Quiescence {
  import opened Lifecycle
  import P = PoolSystem

  /** `GrpcServer::run`. It leaves `serve_with_shutdown` on a signal or on an error. */
  datatype ServerPc = Binding | Announcing | Serving | Notifying | ServerEnded

  /** `WorkerDispatcher::run`; inside the pool's calls the pool's own program counter says where. */
  datatype DispatcherPc = Selecting | Checking | StartingJob | Working | FinishingJob | DispatcherEnded

  /** `lifecycle::shutdown`, with what the finished phases returned. */
  datatype MainPc =
    | AwaitingSignal
    | MarkedShuttingDown
    | ServerStopped
    | PoolStopped
    | PollingStopped
    | TokenCancelled
    | DrainingPool
    | AwaitingTasks
    | ClosingTransports(drained: bool)
    | AwaitingServer(drained: bool)
    | ClosingDependencies(drained: bool, closed: bool)
    | Concluding(drained: bool, closed: bool, cleaned: bool)
    | Finished(result: ShutdownResult)

  /** What the sequence flips: the application state and the flags of the context's members. */
  datatype Flags = Flags(app: AppState, serverAccepting: bool, polling: bool, cancelled: bool, trackerClosed: bool)

  datatype State = State(
    flags: Flags,
    running: bool,
    server: ServerPc,
    pool: P.Pool,
    dispatcher: DispatcherPc,
    connectorEnded: bool,
    sessionTasks: nat,
    main: MainPc)

  /**
   * One task's next step. `MainStep(true)` means that what the sequence waits for, or its budget, is there;
   * `MainStep(false)` that time is up. The other flags resolve a task's own choice. Sessions of the connector spawn
   * tasks outside the tracker, for heartbeats, telemetry and the assignment; nobody waits for those to end.
   */
  datatype Action =
    | MainStep(ok: bool)
    | ServerStep(ok: bool)
    | DispatcherStep(woken: bool)
    | ConnectorEnds
    | SessionTaskSpawned
    | SessionTaskEnds

  /** After `main` has spawned its three tasks; the dispatcher is the pool's only caller. */
  function Launched(maxWorkers: nat): State {
    State(Flags(AppState.Running, true, true, false, false), false, Binding, P.Started(maxWorkers, 1), Selecting, false,
          0, AwaitingSignal)
  }

  predicate TasksEnded(s: State) {
    s.server.ServerEnded? && s.dispatcher.DispatcherEnded? && s.connectorEnded
  }

  /** Where the sequence goes, given what it sees: the running flag, the counter and whether all tasks have ended. */
  function MainPcNext(main: MainPc, ok: bool, running: bool, inFlight: nat, tasksEnded: bool): MainPc {
    match main
    case AwaitingSignal => MarkedShuttingDown
    case MarkedShuttingDown => ServerStopped
    case ServerStopped => PoolStopped
    case PoolStopped => PollingStopped
    case PollingStopped => TokenCancelled
    case TokenCancelled => DrainingPool
    // The pool's drain ends when it sees zero or its time is up; the code goes on either way.
    case DrainingPool => if ok && inFlight != 0 then DrainingPool else AwaitingTasks
    case AwaitingTasks => if ok && !tasksEnded then AwaitingTasks else ClosingTransports(ok)
    case ClosingTransports(drained) =>
      if ok && running then AwaitingServer(drained) else ClosingDependencies(drained, ok)
    case AwaitingServer(drained) =>
      if ok && running then AwaitingServer(drained) else ClosingDependencies(drained, ok)
    case ClosingDependencies(drained, closed) => Concluding(drained, closed, ok)
    case Concluding(drained, closed, cleaned) =>
      Finished(if drained && closed && cleaned && ok then Clean else TimedOut)
    case Finished(_) => main
  }

  /** The flag flipped on the way from a point of the sequence to the next. */
  function Flip(main: MainPc, f: Flags): Flags {
    match main
    case AwaitingSignal => f.(app := ShuttingDown)
    case MarkedShuttingDown => f.(serverAccepting := false)
    case PoolStopped => f.(polling := false)
    case PollingStopped => f.(cancelled := true)
    case TokenCancelled => f.(trackerClosed := true)
    case ClosingTransports(_) => f.(serverAccepting := false)
    case Concluding(_, _, _) => f.(app := Stopped)
    case _ => f
  }

  function MainNext(s: State, ok: bool): State {
    s.(main := MainPcNext(s.main, ok, s.running, s.pool.inFlight, TasksEnded(s)),
       flags := Flip(s.main, s.flags),
       pool := if s.main.ServerStopped? then P.Next(s.pool, P.StopAccepting) else s.pool)
  }

  function ServerPcNext(server: ServerPc, ok: bool, signalled: bool): ServerPc {
    match server
    case Binding => if ok then Announcing else ServerEnded
    case Announcing => Serving
    case Serving => if signalled || !ok then Notifying else Serving
    case Notifying => ServerEnded
    case ServerEnded => ServerEnded
  }

  /** `running` is stored on the way into `serve_with_shutdown` and on the way out. */
  function ServerNext(s: State, ok: bool): State {
    var server := ServerPcNext(s.server, ok, s.flags.cancelled || !s.flags.serverAccepting);
    s.(server := server,
       running := if s.server.Announcing? then true else if server.Notifying? then false else s.running)
  }

  /** The pool's caller after a step of the given call. */
  function CallNext(call: DispatcherPc, pool: P.Pool): DispatcherPc {
    if |pool.threads| == 0 || pool.threads[0].Outside? then Selecting
    else if pool.threads[0].Holding? then Working
    else call
  }

  function DispatcherNext(s: State, woken: bool): State {
    match s.dispatcher
    case Selecting =>
      if woken then s.(dispatcher := Checking)
      else if s.flags.cancelled then s.(flags := s.flags.(polling := false), dispatcher := DispatcherEnded)
      else s
    case Checking => s.(dispatcher := if s.flags.polling then StartingJob else DispatcherEnded)
    case Working => s.(dispatcher := FinishingJob, pool := P.Next(s.pool, P.Step(0)))
    case DispatcherEnded => s
    case call =>
      var pool := P.Next(s.pool, P.Step(0));
      s.(pool := pool, dispatcher := CallNext(call, pool))
  }

  function Next(s: State, a: Action): State {
    match a
    case MainStep(ok) => MainNext(s, ok)
    case ServerStep(ok) => ServerNext(s, ok)
    case DispatcherStep(woken) => DispatcherNext(s, woken)
    case ConnectorEnds => s.(connectorEnded := true)
    case SessionTaskSpawned => if s.connectorEnded then s else s.(sessionTasks := s.sessionTasks + 1)
    case SessionTaskEnds => if s.sessionTasks == 0 then s else s.(sessionTasks := s.sessionTasks - 1)
  }

  function Run(s: State, actions: seq<Action>): State
    decreases |actions|
  {
    if actions == [] then s else Run(Next(s, actions[0]), actions[1..])
  }

  // ----- the invariant -----

  /** The dispatcher's program counter and the pool's agree: it holds a job only while it works on one. */
  ghost predicate DispatcherLinked(dispatcher: DispatcherPc, pool: P.Pool) {
    && P.Inv(pool) && |pool.threads| == 1
    && var pc := pool.threads[0];
       match dispatcher
       case StartingJob => pc.Outside? || P.Attempting(pc)
       case Working => pc.Holding?
       case FinishingJob => P.HasJob(pc) && !pc.Holding?
       case _ => pc.Outside?
  }

  ghost predicate ServerLinked(s: State) {
    s.running <==> s.server.Serving?
  }

  /** How far the shutdown has come. */
  function Progress(main: MainPc): nat {
    match main
    case AwaitingSignal => 0
    case MarkedShuttingDown => 1
    case ServerStopped => 2
    case PoolStopped => 3
    case PollingStopped => 4
    case TokenCancelled => 5
    case DrainingPool => 6
    case AwaitingTasks => 7
    case _ => 8
  }

  /** Each flag that the sequence has flipped stays flipped. */
  ghost predicate FlagsFollow(main: MainPc, f: Flags, poolAccepting: bool) {
    var p := Progress(main);
    && (p >= 2 ==> !f.serverAccepting)
    && (p >= 3 ==> !poolAccepting)
    && (p >= 4 ==> !f.polling)
    && (p >= 5 ==> f.cancelled)
    && (p >= 6 ==> f.trackerClosed)
    && (main.Finished? ==> f.app == Stopped)
  }

  ghost predicate SaysDrained(main: MainPc) {
    match main
    case ClosingTransports(drained) => drained
    case AwaitingServer(drained) => drained
    case ClosingDependencies(drained, _) => drained
    case Concluding(drained, _, _) => drained
    case Finished(result) => result.Clean?
    case _ => false
  }

  /** A successful drain means that all tasks have ended; the server is then never waited for. */
  ghost predicate DrainTells(main: MainPc, tasksEnded: bool) {
    SaysDrained(main) ==> tasksEnded && !main.AwaitingServer?
  }

  ghost predicate Inv(s: State) {
    && DispatcherLinked(s.dispatcher, s.pool)
    && ServerLinked(s)
    && FlagsFollow(s.main, s.flags, s.pool.accepting)
    && DrainTells(s.main, TasksEnded(s))
  }

  lemma CallKeepsLink(call: DispatcherPc, pool: P.Pool)
    requires DispatcherLinked(call, pool) && (call.StartingJob? || call.Working? || call.FinishingJob?)
    ensures var next := P.Next(pool, P.Step(0));
            && DispatcherLinked(if call.Working? then FinishingJob else CallNext(call, next), next)
            && next.accepting == pool.accepting
  {
    P.NextKeepsInv(pool, P.Step(0));
  }

  lemma DispatcherKeepsInv(s: State, woken: bool)
    requires Inv(s)
    ensures Inv(DispatcherNext(s, woken))
  {
    if s.dispatcher.StartingJob? || s.dispatcher.Working? || s.dispatcher.FinishingJob? {
      CallKeepsLink(s.dispatcher, s.pool);
    }
  }

  lemma MainKeepsFlags(main: MainPc, ok: bool, running: bool, inFlight: nat, tasksEnded: bool, f: Flags,
                       accepting: bool)
    requires FlagsFollow(main, f, accepting) && DrainTells(main, tasksEnded) && (tasksEnded ==> !running)
    ensures var next := MainPcNext(main, ok, running, inFlight, tasksEnded);
            && FlagsFollow(next, Flip(main, f), accepting && !main.ServerStopped?)
            && DrainTells(next, tasksEnded)
  {
  }

  lemma MainKeepsInv(s: State, ok: bool)
    requires Inv(s)
    ensures Inv(MainNext(s, ok))
  {
    MainKeepsFlags(s.main, ok, s.running, s.pool.inFlight, TasksEnded(s), s.flags, s.pool.accepting);
    P.NextKeepsInv(s.pool, P.StopAccepting);
  }

  lemma NextKeepsInv(s: State, a: Action)
    requires Inv(s)
    ensures Inv(Next(s, a))
  {
    match a
    case MainStep(ok) => MainKeepsInv(s, ok);
    case DispatcherStep(woken) => DispatcherKeepsInv(s, woken);
    case _ =>
  }

  lemma {:induction false} RunKeepsInv(s: State, actions: seq<Action>)
    requires Inv(s)
    ensures Inv(Run(s, actions))
    decreases |actions|
  {
    if actions == [] {
    } else {
      NextKeepsInv(s, actions[0]);
      RunKeepsInv(Next(s, actions[0]), actions[1..]);
    }
  }

  lemma ReachableSatisfiesInv(maxWorkers: nat, actions: seq<Action>)
    ensures Inv(Run(Launched(maxWorkers), actions))
  {
    P.NobodyYet(1);
    RunKeepsInv(Launched(maxWorkers), actions);
  }

  /**
   * A clean result means that everything the shutdown keeps track of is quiescent: every tracked task has ended, no
   * job is held or in flight or can still start, nothing accepts or polls, the server is down and the state is
   * Stopped. It stays so from then on, and no session can spawn a task any more.
   */
  lemma CleanMeansQuiescent(maxWorkers: nat, actions: seq<Action>)
    requires Run(Launched(maxWorkers), actions).main == Finished(Clean)
    ensures var s := Run(Launched(maxWorkers), actions);
            && TasksEnded(s) && s.flags == Flags(Stopped, false, false, true, true)
            && s.pool.inFlight == 0 && P.Load(s.pool) == 0 && s.pool.threads == [P.Outside]
            && !s.pool.accepting && !s.running
            && forall a :: Next(s, a) ==
                 if a.SessionTaskEnds? && s.sessionTasks > 0 then s.(sessionTasks := s.sessionTasks - 1) else s
  {
    ReachableSatisfiesInv(maxWorkers, actions);
    var s := Run(Launched(maxWorkers), actions);
    assert s.pool.threads == [P.Outside];
    assert P.Holders([P.Outside]) == 0 && P.Attempts([P.Outside]) == 0;
  }

  /** The result is clean exactly if all three phases succeeded in time; an earlier failure is never made good. */
  lemma ConcludesCleanIff(s: State, ok: bool)
    requires s.main.Concluding?
    ensures Next(s, MainStep(ok)).main == Finished(if s.main.drained && s.main.closed && s.main.cleaned && ok
                                                   then Clean else TimedOut)
    ensures Next(s, MainStep(ok)).flags.app == Stopped
  {
  }

  /** Once told to stop, the dispatcher ends at its select or at its look at polling, whichever comes next. */
  lemma StoppedDispatcherEnds(s: State)
    requires Inv(s) && ToldToStop(s) && (s.dispatcher.Selecting? || s.dispatcher.Checking?)
    ensures Next(s, DispatcherStep(false)).dispatcher.DispatcherEnded?
  {
  }

  lemma RunStep(s: State, a: Action, rest: seq<Action>)
    ensures Run(s, [a] + rest) == Run(Next(s, a), rest)
  {
    assert ([a] + rest)[1..] == rest;
  }

  /** Main steps in which nothing is left to wait for. */
  function MainSteps(n: nat): seq<Action> {
    if n == 0 then [] else [MainStep(true)] + MainSteps(n - 1)
  }

  function AfterMain(s: State, n: nat): State
    decreases n
  {
    if n == 0 then s else AfterMain(MainNext(s, true), n - 1)
  }

  lemma {:induction false} MainRuns(s: State, n: nat, rest: seq<Action>)
    ensures Run(s, MainSteps(n) + rest) == Run(AfterMain(s, n), rest)
    decreases n
  {
    if n == 0 {
      assert MainSteps(n) + rest == rest;
    } else {
      assert MainSteps(n) + rest == [MainStep(true)] + (MainSteps(n - 1) + rest);
      RunStep(s, MainStep(true), MainSteps(n - 1) + rest);
      MainRuns(MainNext(s, true), n - 1, rest);
    }
  }

  lemma {:induction false} RunSplits(s: State, before: seq<Action>, after: seq<Action>)
    ensures Run(s, before + after) == Run(Run(s, before), after)
    decreases |before|
  {
    if before == [] {
      assert before + after == after;
    } else {
      assert (before + after)[0] == before[0] && (before + after)[1..] == before[1..] + after;
      RunSplits(Next(s, before[0]), before[1..], after);
    }
  }

  /** Six steps take the shutdown from its start to the pool's drain, whatever the tasks have come to. */
  lemma ReachesDrain(s: State)
    requires s.main.AwaitingSignal?
    ensures AfterMain(s, 6) == s.(flags := Flags(ShuttingDown, false, false, true, true),
                                  pool := P.Next(s.pool, P.StopAccepting),
                                  main := DrainingPool)
  {
    var s2 := MainNext(MainNext(s, true), true);
    var s4 := MainNext(MainNext(s2, true), true);
    assert AfterMain(s, 6) == AfterMain(s2, 4) == AfterMain(s4, 2) == MainNext(MainNext(s4, true), true);
  }

  lemma FinishesClean(s: State)
    requires s.main.DrainingPool? && s.pool.inFlight == 0 && TasksEnded(s) && !s.running
    ensures AfterMain(s, 5).main == Finished(Clean) && AfterMain(s, 5).sessionTasks == s.sessionTasks
  {
    var s2 := MainNext(MainNext(s, true), true);
    var s4 := MainNext(MainNext(s2, true), true);
    assert s2.main == ClosingTransports(true) && s4.main == Concluding(true, true, true);
    assert AfterMain(s, 5) == AfterMain(s2, 3) == AfterMain(s4, 1) == MainNext(s4, true);
  }

  // ----- a clean end is within reach -----

  /** How far the dispatcher is from its end once it has been told to stop. A stale load costs a turn of its loop. */
  function DispatcherRank(dispatcher: DispatcherPc, pool: P.Pool): nat {
    match dispatcher
    case DispatcherEnded => 0
    case Selecting => 1
    case Checking => 2
    case Working => 5
    case _ =>
      if pool.threads == [] then 0
      else match pool.threads[0]
        case SeenAtFinish(top) => if top == pool.inFlight then 2 else 4
        case Finishing => 3
        case Seen(count) => if count == pool.inFlight then 6 else 8
        case Admitted => 7
        case _ => 2
  }

  predicate ToldToStop(s: State) {
    s.flags.cancelled && !s.flags.polling && !s.pool.accepting
  }

  lemma DispatcherRankDrops(s: State)
    requires Inv(s) && ToldToStop(s) && !s.dispatcher.DispatcherEnded?
    ensures var n := DispatcherNext(s, false);
            && n == s.(dispatcher := n.dispatcher, pool := n.pool) && ToldToStop(n)
            && DispatcherRank(n.dispatcher, n.pool) < DispatcherRank(s.dispatcher, s.pool)
  {
    P.SomeHolder(s.pool.threads);
    P.NextKeepsInv(s.pool, P.Step(0));
  }

  lemma {:induction false} DispatcherEnds(s: State) returns (actions: seq<Action>)
    requires Inv(s) && ToldToStop(s)
    ensures var t := Run(s, actions); Inv(t) && t == s.(dispatcher := DispatcherEnded, pool := t.pool)
    decreases DispatcherRank(s.dispatcher, s.pool)
  {
    if s.dispatcher.DispatcherEnded? {
      actions := [];
    } else {
      var n := DispatcherNext(s, false);
      DispatcherKeepsInv(s, false);
      DispatcherRankDrops(s);
      var rest := DispatcherEnds(n);
      actions := [DispatcherStep(false)] + rest;
      RunStep(s, DispatcherStep(false), rest);
    }
  }

  const SERVER_STEPS := [ServerStep(false)] + ([ServerStep(false)] + ([ServerStep(false)] + []))

  lemma ServerEnds(s: State)
    requires ServerLinked(s) && s.flags.cancelled
    ensures Run(s, SERVER_STEPS) == s.(server := ServerEnded, running := false)
  {
    var s1 := ServerNext(s, false);
    var s2 := ServerNext(s1, false);
    RunStep(s, ServerStep(false), [ServerStep(false)] + ([ServerStep(false)] + []));
    RunStep(s1, ServerStep(false), [ServerStep(false)] + []);
    RunStep(s2, ServerStep(false), []);
  }

  lemma IdleWhenEnded(s: State)
    requires Inv(s) && s.dispatcher.DispatcherEnded?
    ensures s.pool.inFlight == 0
  {
    assert s.pool.threads == [P.Outside];
    assert P.Holders([P.Outside]) == 0;
  }

  /** The tracked tasks, told to stop, can all end, and the shutdown then ends clean. */
  lemma CleanFromDrain(s: State) returns (actions: seq<Action>)
    requires Inv(s) && s.main.DrainingPool?
    ensures var t := Run(s, actions); t.main == Finished(Clean) && t.sessionTasks == s.sessionTasks
  {
    var dispatcher := DispatcherEnds(s);
    var s1 := Run(s, dispatcher);
    IdleWhenEnded(s1);
    ServerEnds(s1);
    var s2 := Run(s1, SERVER_STEPS);
    var s3 := Next(s2, ConnectorEnds);
    FinishesClean(s3);
    actions := dispatcher + (SERVER_STEPS + ([ConnectorEnds] + (MainSteps(5) + [])));
    RunSplits(s, dispatcher, SERVER_STEPS + ([ConnectorEnds] + (MainSteps(5) + [])));
    RunSplits(s1, SERVER_STEPS, [ConnectorEnds] + (MainSteps(5) + []));
    RunStep(s2, ConnectorEnds, MainSteps(5) + []);
    MainRuns(s3, 5, []);
  }

  /** From every moment before the shutdown a clean end is possible, with all session tasks of that moment left. */
  lemma CleanEndIsPossible(s: State) returns (actions: seq<Action>)
    requires Inv(s) && s.main.AwaitingSignal?
    ensures var t := Run(s, actions); t.main == Finished(Clean) && t.sessionTasks == s.sessionTasks
  {
    var drain := AfterMain(s, 6);
    MainRuns(s, 6, []);
    RunKeepsInv(s, MainSteps(6) + []);
    ReachesDrain(s);
    var rest := CleanFromDrain(drain);
    actions := MainSteps(6) + rest;
    MainRuns(s, 6, rest);
  }

  lemma {:induction false} NoSessionTaskAgain(s: State, actions: seq<Action>)
    requires s.connectorEnded && s.sessionTasks == 0
    ensures Run(s, actions).connectorEnded && Run(s, actions).sessionTasks == 0
    decreases |actions|
  {
    if actions == [] {
    } else {
      NoSessionTaskAgain(Next(s, actions[0]), actions[1..]);
    }
  }

  /** A clean end that leaves a session task, if there is one or the connector can still spawn one. */
  lemma SessionTaskMayOutlive(s: State) returns (actions: seq<Action>)
    requires Inv(s) && s.main.AwaitingSignal? && !(s.connectorEnded && s.sessionTasks == 0)
    ensures var t := Run(s, actions);
            t.main == Finished(Clean) && t.sessionTasks == if s.sessionTasks > 0 then s.sessionTasks else 1
  {
    if s.sessionTasks > 0 {
      actions := CleanEndIsPossible(s);
    } else {
      var rest := CleanEndIsPossible(Next(s, SessionTaskSpawned));
      actions := [SessionTaskSpawned] + rest;
      RunStep(s, SessionTaskSpawned, rest);
    }
  }

  /**
   * A clean result says nothing about the tasks that sessions spawn, since nobody tracks them. Seen from any moment
   * before the shutdown, every clean end leaves none of them if and only if the connector has ended by then and
   * none is left.
   */
  lemma CleanLeavesNoSessionTaskIff(s: State)
    requires Inv(s) && s.main.AwaitingSignal?
    ensures (forall actions :: Run(s, actions).main == Finished(Clean) ==> Run(s, actions).sessionTasks == 0)
       <==> s.connectorEnded && s.sessionTasks == 0
  {
    if s.connectorEnded && s.sessionTasks == 0 {
      forall actions ensures Run(s, actions).sessionTasks == 0 {
        NoSessionTaskAgain(s, actions);
      }
    } else {
      var actions := SessionTaskMayOutlive(s);
    }
  }

  /** In particular right after the start. */
  lemma SessionTaskOutlivesCleanShutdown(maxWorkers: nat) returns (actions: seq<Action>)
    ensures var s := Run(Launched(maxWorkers), actions); s.main == Finished(Clean) && s.sessionTasks == 1
  {
    ReachableSatisfiesInv(maxWorkers, []);
    actions := SessionTaskMayOutlive(Launched(maxWorkers));
  }

  /**
   * After a successful drain the transport phase, given any budget, ends at its first look at the running flag; the
   * gap between that look and waiting for the notification is never entered.
   */
  lemma TransportsCloseAfterDrain(maxWorkers: nat, actions: seq<Action>)
    ensures var s := Run(Launched(maxWorkers), actions);
            && !(s.main.AwaitingServer? && s.main.drained)
            && (s.main == ClosingTransports(true) ==> Next(s, MainStep(true)).main == ClosingDependencies(true, true))
  {
    ReachableSatisfiesInv(maxWorkers, actions);
  }
}
