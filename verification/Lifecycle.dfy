/**
 * The deadline-budgeted shutdown. Times are readings of a monotone clock in nanoseconds. A timeout never fires
 * before its deadline, but may fire late, and a future that completes may do so at any time.
 */
module Lifecycle {
  import opened GrpcServer
  import PoolSystem
  import opened WorkerPool

  const NANOS_PER_MILLI := 1_000_000
  const DEPENDENCY_CLEANUP := 20 * NANOS_PER_MILLI

  datatype ShutdownResult = Clean | TimedOut

  datatype AppState = Starting | Running | ShuttingDown | Stopped

  /** One `timeout(budget, future).await`: when it was armed, when it returned, and whether the future completed. */
  datatype Await = Await(armedAt: nat, returnedAt: nat, completed: bool)

  /** The clock readings and awaits of one shutdown, in program order. */
  datatype Timeline = Timeline(
    startedAt: nat,
    drainReadAt: nat,
    drainStartedAt: nat,
    pool: Await,
    waitReadAt: nat,
    tasks: Await,
    transportReadAt: nat,
    server: Await,
    depsReadAt: nat,
    deps: Await,
    finishedAt: nat)

  function SaturatingSub(a: nat, b: nat): nat {
    if a < b then 0 else a - b
  }

  function Millis(nanos: nat): nat {
    nanos / NANOS_PER_MILLI
  }

  predicate InOrder(t: Timeline) {
    && t.startedAt <= t.drainReadAt <= t.drainStartedAt <= t.pool.armedAt <= t.pool.returnedAt
    && t.pool.returnedAt <= t.waitReadAt <= t.tasks.armedAt <= t.tasks.returnedAt
    && t.tasks.returnedAt <= t.transportReadAt <= t.server.armedAt <= t.server.returnedAt
    && t.server.returnedAt <= t.depsReadAt <= t.deps.armedAt <= t.deps.returnedAt <= t.finishedAt
  }

  /** What is left of `timeout` at a reading of the clock. */
  function Left(timeout: nat, t: Timeline, readAt: nat): nat
    requires t.startedAt <= readAt
  {
    SaturatingSub(timeout, readAt - t.startedAt)
  }

  function DrainBudget(timeout: nat, t: Timeline): nat
    requires InOrder(t)
  {
    Left(timeout, t, t.drainReadAt)
  }

  function WaitBudget(timeout: nat, t: Timeline): nat
    requires InOrder(t)
  {
    SaturatingSub(DrainBudget(timeout, t), t.waitReadAt - t.drainStartedAt)
  }

  function TransportBudget(timeout: nat, t: Timeline): nat
    requires InOrder(t)
  {
    Left(timeout, t, t.transportReadAt)
  }

  function DepsBudget(timeout: nat, t: Timeline): nat
    requires InOrder(t)
  {
    Left(timeout, t, t.depsReadAt)
  }

  /** The await gives up only once its budget has passed. */
  predicate NeverEarly(a: Await, budget: nat) {
    !a.completed ==> a.returnedAt >= a.armedAt + budget
  }

  /** The clock is monotone, no timeout fires early, and the dependency clean-up sleeps its full time. */
  predicate Admissible(timeout: nat, t: Timeline) {
    && InOrder(t)
    && NeverEarly(t.pool, DrainBudget(timeout, t))
    && (WaitBudget(timeout, t) > 0 ==> NeverEarly(t.tasks, WaitBudget(timeout, t)))
    && (TransportBudget(timeout, t) > 0 ==> NeverEarly(t.server, TransportBudget(timeout, t)))
    && NeverEarly(t.deps, DepsBudget(timeout, t))
    && (t.deps.completed ==> t.deps.returnedAt >= t.deps.armedAt + DEPENDENCY_CLEANUP)
  }

  predicate Drained(timeout: nat, t: Timeline)
    requires InOrder(t)
  {
    WaitBudget(timeout, t) > 0 && t.tasks.completed
  }

  predicate TransportsClosed(timeout: nat, t: Timeline)
    requires InOrder(t)
  {
    TransportBudget(timeout, t) > 0 && t.server.completed
  }

  function Elapsed(t: Timeline): nat
    requires InOrder(t)
  {
    t.finishedAt - t.startedAt
  }

  /** The moment before which an await's timeout does not fire. */
  function Deadline(a: Await, budget: nat): nat {
    a.armedAt + budget
  }

  /**
   * When each timeout can fire: at the original deadline, later only by the time between the reading that its
   * budget comes from and the moment it is armed. The second wait of the drain also inherits the time between the
   * reading of the clock and the start of `drain_tasks`. No other error accumulates over the phases.
   */
  lemma DeadlinesComeFromTheFirst(timeout: nat, t: Timeline)
    requires InOrder(t)
    ensures var original := t.startedAt + timeout;
            && (DrainBudget(timeout, t) > 0 ==>
                  Deadline(t.pool, DrainBudget(timeout, t)) == original + (t.pool.armedAt - t.drainReadAt))
            && (WaitBudget(timeout, t) > 0 ==>
                  Deadline(t.tasks, WaitBudget(timeout, t))
                    == original + (t.drainStartedAt - t.drainReadAt) + (t.tasks.armedAt - t.waitReadAt))
            && (TransportBudget(timeout, t) > 0 ==>
                  Deadline(t.server, TransportBudget(timeout, t)) == original + (t.server.armedAt - t.transportReadAt))
            && (DepsBudget(timeout, t) > 0 ==>
                  Deadline(t.deps, DepsBudget(timeout, t)) == original + (t.deps.armedAt - t.depsReadAt))
  {
  }

  /**
   * A timeout's deadline lies within the original one if and only if its clock was read in time and no time passed
   * from there until it was armed.
   */
  lemma DeadlineWithinTheFirstIff(timeout: nat, t: Timeline)
    requires InOrder(t)
    ensures var original := t.startedAt + timeout;
            && (Deadline(t.pool, DrainBudget(timeout, t)) <= original <==> t.pool.armedAt == t.drainReadAt <= original)
            && (Deadline(t.tasks, WaitBudget(timeout, t)) <= original <==>
                  t.drainStartedAt == t.drainReadAt && t.tasks.armedAt == t.waitReadAt <= original)
            && (Deadline(t.server, TransportBudget(timeout, t)) <= original <==>
                  t.server.armedAt == t.transportReadAt <= original)
            && (Deadline(t.deps, DepsBudget(timeout, t)) <= original <==> t.deps.armedAt == t.depsReadAt <= original)
  {
  }

  /**
   * Phases fail in a cascade: a failed drain leaves no budget for the transports, and failed transports leave none
   * for the dependencies, which then fail or complete at least their own clean-up time past the deadline.
   */
  lemma FailuresCascade(timeout: nat, t: Timeline)
    requires Admissible(timeout, t)
    ensures !Drained(timeout, t) ==> TransportBudget(timeout, t) == 0 && !TransportsClosed(timeout, t)
    ensures !TransportsClosed(timeout, t) ==> DepsBudget(timeout, t) == 0
    ensures !TransportsClosed(timeout, t) && t.deps.completed ==>
              t.deps.returnedAt >= t.startedAt + timeout + 20_000_000
  {
  }

  /** The result of the sequence as the code computes it from its three phases and the final reading. */
  function Result(timeout: nat, t: Timeline): ShutdownResult
    requires InOrder(t)
  {
    if Drained(timeout, t) && TransportsClosed(timeout, t) && t.deps.completed && Millis(Elapsed(t)) <= Millis(timeout)
    then Clean else TimedOut
  }

  /** The first two phases need not be asked: the shutdown is clean iff dependencies closed and time was kept. */
  lemma CleanIffDependenciesClosedInTime(timeout: nat, t: Timeline)
    requires Admissible(timeout, t)
    ensures Result(timeout, t).Clean? <==> t.deps.completed && Millis(Elapsed(t)) <= Millis(timeout)
  {
    FailuresCascade(timeout, t);
    if !TransportsClosed(timeout, t) && t.deps.completed {
      assert Elapsed(t) >= timeout + DEPENDENCY_CLEANUP;
      assert Millis(timeout + DEPENDENCY_CLEANUP) == Millis(timeout) + 20;
    }
  }

  // ----- how long it takes -----

  /** Time by which an await overran its budget. */
  function Overrun(a: Await, budget: nat): nat
    requires a.armedAt <= a.returnedAt
  {
    SaturatingSub(a.returnedAt - a.armedAt, budget)
  }

  /** The part of a stretch of time that lies past the deadline. */
  function Past(deadline: nat, from: nat, to: nat): nat {
    SaturatingSub(to, if from < deadline then deadline else from)
  }

  /**
   * What an await adds to the lateness: nothing if it returns by the deadline, else its overrun and the time for
   * which its budget was out of date when it was armed.
   */
  function AwaitLate(deadline: nat, a: Await, stale: nat, budget: nat): nat
    requires a.armedAt <= a.returnedAt
  {
    if a.returnedAt <= deadline then 0 else stale + Overrun(a, budget)
  }

  /** The lateness, phase by phase; time spent before the deadline, in code or in awaits, does not count. */
  function Lateness(timeout: nat, t: Timeline): nat
    requires InOrder(t)
  {
    var deadline := t.startedAt + timeout;
    Past(deadline, t.startedAt, t.drainReadAt)
    + AwaitLate(deadline, t.pool, t.pool.armedAt - t.drainReadAt, DrainBudget(timeout, t))
    + Past(deadline, t.pool.returnedAt, t.waitReadAt)
    + AwaitLate(deadline, t.tasks, (t.drainStartedAt - t.drainReadAt) + (t.tasks.armedAt - t.waitReadAt),
                WaitBudget(timeout, t))
    + Past(deadline, t.tasks.returnedAt, t.transportReadAt)
    + AwaitLate(deadline, t.server, t.server.armedAt - t.transportReadAt, TransportBudget(timeout, t))
    + Past(deadline, t.server.returnedAt, t.depsReadAt)
    + AwaitLate(deadline, t.deps, t.deps.armedAt - t.depsReadAt, DepsBudget(timeout, t))
    + Past(deadline, t.deps.returnedAt, t.finishedAt)
  }

  /**
   * The whole sequence ends by its deadline plus the lateness.
   */
  lemma EndsByDeadlinePlusLateness(timeout: nat, t: Timeline)
    requires InOrder(t)
    ensures t.finishedAt <= t.startedAt + timeout + Lateness(timeout, t)
  {
  }

  /** An await whose timeout is armed as its budget is read, and fires on time. */
  predicate OnTime(a: Await, readAt: nat, budget: nat)
    requires a.armedAt <= a.returnedAt
  {
    a.armedAt == readAt && Overrun(a, budget) == 0
  }

  /** Every await that returns past the deadline is on time, and no code takes time past the deadline. */
  predicate Punctual(timeout: nat, t: Timeline)
    requires InOrder(t)
  {
    var deadline := t.startedAt + timeout;
    && (t.pool.returnedAt > deadline ==> OnTime(t.pool, t.drainReadAt, DrainBudget(timeout, t)))
    && (t.tasks.returnedAt > deadline ==>
          t.drainStartedAt == t.drainReadAt && OnTime(t.tasks, t.waitReadAt, WaitBudget(timeout, t)))
    && (t.server.returnedAt > deadline ==> OnTime(t.server, t.transportReadAt, TransportBudget(timeout, t)))
    && (t.deps.returnedAt > deadline ==> OnTime(t.deps, t.depsReadAt, DepsBudget(timeout, t)))
    && Past(deadline, t.startedAt, t.drainReadAt) == 0
    && Past(deadline, t.pool.returnedAt, t.waitReadAt) == 0
    && Past(deadline, t.tasks.returnedAt, t.transportReadAt) == 0
    && Past(deadline, t.server.returnedAt, t.depsReadAt) == 0
    && Past(deadline, t.deps.returnedAt, t.finishedAt) == 0
  }

  /** If timeouts are armed as read and fire on time, and no code runs past it, the deadline itself is kept. */
  lemma PunctualEndsByDeadline(timeout: nat, t: Timeline)
    requires InOrder(t) && Punctual(timeout, t)
    ensures t.finishedAt <= t.startedAt + timeout
  {
    EndsByDeadlinePlusLateness(timeout, t);
  }

  /** How late it ends is up to the last phase, whose budget is read anew whatever the earlier ones took. */
  lemma LastPhaseDecides(timeout: nat, t: Timeline)
    requires InOrder(t)
    ensures var latest := if t.depsReadAt < t.startedAt + timeout then t.startedAt + timeout else t.depsReadAt;
            t.finishedAt <= latest + (t.deps.armedAt - t.depsReadAt) + Overrun(t.deps, DepsBudget(timeout, t))
                            + (t.finishedAt - t.deps.returnedAt)
  {
  }

  // ----- the sequence itself -----

  class AppContext {
    var state: AppState
    var tokenCancelled: bool
    var trackerClosed: bool
    const pool: WorkerPool
    const dispatcher: WorkerDispatcher
    const server: GrpcServer

    constructor (pool: WorkerPool, dispatcher: WorkerDispatcher, server: GrpcServer)
      ensures this.pool == pool && this.dispatcher == dispatcher && this.server == server
      ensures state == Starting && !tokenCancelled && !trackerClosed
    {
      this.pool, this.dispatcher, this.server := pool, dispatcher, server;
      state, tokenCancelled, trackerClosed := Starting, false, false;
    }

    /**
     * `gaps`: what the pool's callers do while the drain polls; when they are used up, its time is. If nobody can
     * start a job any more, a counter seen at zero stays there.
     */
    method DrainTasks(timeout: nat, startedAt: nat, gaps: seq<Gap>, waitReadAt: nat, tasks: Await)
      returns (drained: bool, ghost meanwhile: Gap)
      requires startedAt <= waitReadAt
      modifies this`trackerClosed, pool
      ensures trackerClosed
      ensures drained <==> waitReadAt - startedAt < timeout && tasks.completed
      ensures pool.View() == PoolSystem.Run(old(pool.View()), meanwhile)
      ensures pool.inFlight == 0 <==> RunsDry(old(pool.View()), gaps)
      ensures var before := old(pool.View());
              (RunsDry(before, gaps) && PoolSystem.Inv(before) && !before.accepting
               && PoolSystem.Attempts(before.threads) == 0) ==> PoolSystem.Load(pool.View()) == 0
    {
      trackerClosed := true;
      // The outcome of draining the pool is only logged; running out of time there shows in what remains.
      var idle;
      idle, meanwhile := pool.Drain(gaps);
      var remaining := SaturatingSub(timeout, waitReadAt - startedAt);
      if remaining == 0 {
        return false, meanwhile;
      }
      return tasks.completed, meanwhile;
    }

    /** `looks`: the running flag as the server's wait sees it after each notification in its time. */
    method CloseTransports(timeout: nat, looks: seq<bool>) returns (closed: bool)
      modifies server
      ensures closed <==> timeout > 0 && (!old(server.running) || false in looks)
      ensures closed ==> !server.running
      ensures !old(server.accepting) ==> !server.accepting
    {
      if timeout == 0 {
        return false;
      }
      closed := server.Shutdown(looks);
    }

    /**
     * The shutdown sequence for the clock readings `t`. `ended` says whether the server's run ends while the tasks
     * are drained. The result is clean exactly when the dependencies closed in time, and then the tracked tasks and
     * the server have ended; in any case everything has been told to stop.
     */
    method Shutdown(timeout: nat, t: Timeline, gaps: seq<Gap>, ended: bool, looks: seq<bool>)
      returns (r: ShutdownResult, ghost meanwhile: Gap)
      requires Admissible(timeout, t)
      requires t.pool.completed <==> RunsDry(PoolSystem.Next(pool.View(), PoolSystem.StopAccepting), gaps)
      requires t.server.completed <==> ended || !server.running || false in looks
      modifies this, pool, dispatcher, server
      ensures r.Clean? <==> t.deps.completed && (t.finishedAt - t.startedAt) / 1_000_000 <= timeout / 1_000_000
      ensures r.Clean? ==> t.tasks.completed && !server.running
      ensures state == Stopped && tokenCancelled && trackerClosed
      ensures !server.accepting && !dispatcher.polling
      ensures pool.View() == PoolSystem.Run(PoolSystem.Next(old(pool.View()), PoolSystem.StopAccepting), meanwhile)
      ensures pool.inFlight == 0 <==> t.pool.completed
    {
      state := ShuttingDown;
      server.StopAccepting();
      pool.StopAccepting();
      dispatcher.StopPolling();
      tokenCancelled := true;
      var remainingForDrain := SaturatingSub(timeout, t.drainReadAt - t.startedAt);
      var drained;
      drained, meanwhile := DrainTasks(remainingForDrain, t.drainStartedAt, gaps, t.waitReadAt, t.tasks);
      if ended {
        server.EndServing();
      }
      var remainingForTransport := SaturatingSub(timeout, t.transportReadAt - t.startedAt);
      var closed := CloseTransports(remainingForTransport, looks);
      var clean := drained && closed && t.deps.completed && Millis(t.finishedAt - t.startedAt) <= Millis(timeout);
      CleanIffDependenciesClosedInTime(timeout, t);
      assert clean <==> Result(timeout, t).Clean?;
      state := Stopped;
      return if clean then Clean else TimedOut, meanwhile;
    }
  }
}
