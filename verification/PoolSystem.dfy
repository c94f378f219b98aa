/**
 * The lock-free worker pool under interleaving. Every load, every compare-exchange and every look at the
 * acceptance flag is one step of one calling thread; any number of threads take steps in any order.
 */
module PoolSystem {

  type Positive = n: nat | n > 0 witness 1

  /** Where a thread stands in `try_start_job` or `finish_job`. */
  datatype Pc =
    | Outside
    | Admitted                      // past the look at the accepting flag, about to load
    | Seen(count: nat)              // loaded, about to exchange upwards
    | Holding                       // `try_start_job` returned true
    | Finishing                     // inside `finish_job`, about to load
    | SeenAtFinish(top: Positive)   // loaded, about to exchange downwards

  /** Ghost counts of what has happened: jobs started, exchanges won and lost, and finishes that saw zero. */
  datatype Tally = Tally(starts: nat, wins: nat, losses: nat, zeroFinishes: nat)

  datatype Pool = Pool(maxWorkers: nat, accepting: bool, inFlight: nat, threads: seq<Pc>, tally: Tally)

  /** A thread takes its next atomic step (entering or finishing included), or somebody stops the pool. */
  datatype Action = Step(thread: nat) | StopAccepting

  function Started(maxWorkers: nat, threads: nat): Pool {
    Pool(if maxWorkers < 1 then 1 else maxWorkers, true, 0, seq(threads, _ => Outside), Tally(0, 0, 0, 0))
  }

  function At(p: Pool, t: nat, pc: Pc): Pool
    requires t < |p.threads|
  {
    p.(threads := p.threads[t := pc])
  }

  function Next(p: Pool, a: Action): Pool {
    match a
    case StopAccepting => p.(accepting := false)
    case Step(t) =>
      if t >= |p.threads| then p
      else match p.threads[t]
        case Outside => if p.accepting then At(p, t, Admitted) else p
        case Admitted => At(p, t, if p.inFlight >= p.maxWorkers then Outside else Seen(p.inFlight))
        case Seen(c) =>
          if p.inFlight == c then
            At(p, t, Holding).(
              inFlight := c + 1,
              tally := p.tally.(starts := p.tally.starts + 1, wins := p.tally.wins + 1))
          else At(p, t, Admitted).(tally := p.tally.(losses := p.tally.losses + 1))
        case Holding => At(p, t, Finishing)
        case Finishing =>
          if p.inFlight == 0 then At(p, t, Outside).(tally := p.tally.(zeroFinishes := p.tally.zeroFinishes + 1))
          else At(p, t, SeenAtFinish(p.inFlight))
        case SeenAtFinish(c) =>
          if p.inFlight == c then
            At(p, t, Outside).(inFlight := c - 1, tally := p.tally.(wins := p.tally.wins + 1))
          else At(p, t, Finishing).(tally := p.tally.(losses := p.tally.losses + 1))
  }

  function Run(p: Pool, actions: seq<Action>): Pool
    decreases |actions|
  {
    if actions == [] then p else Run(Next(p, actions[0]), actions[1..])
  }

  lemma {:induction false} RunSplits(p: Pool, before: seq<Action>, after: seq<Action>)
    ensures Run(p, before + after) == Run(Run(p, before), after)
    decreases |before|
  {
    if before == [] {
      assert before + after == after;
    } else {
      assert (before + after)[0] == before[0] && (before + after)[1..] == before[1..] + after;
      RunSplits(Next(p, before[0]), before[1..], after);
    }
  }

  // ----- counting threads -----

  predicate HasJob(pc: Pc) {
    pc.Holding? || pc.Finishing? || pc.SeenAtFinish?
  }

  /** Past the look at the accepting flag, with the compare-exchange still to come. */
  predicate Attempting(pc: Pc) {
    pc.Admitted? || pc.Seen?
  }

  /** The thread has loaded a count that the counter no longer holds, so its exchange will fail. */
  predicate Stale(pc: Pc, inFlight: nat) {
    (pc.Seen? && pc.count != inFlight) || (pc.SeenAtFinish? && pc.top != inFlight)
  }

  function Holders(threads: seq<Pc>): nat {
    if threads == [] then 0 else Holders(threads[1..]) + if HasJob(threads[0]) then 1 else 0
  }

  function Attempts(threads: seq<Pc>): nat {
    if threads == [] then 0 else Attempts(threads[1..]) + if Attempting(threads[0]) then 1 else 0
  }

  function StaleLoads(threads: seq<Pc>, inFlight: nat): nat {
    if threads == [] then 0 else StaleLoads(threads[1..], inFlight) + if Stale(threads[0], inFlight) then 1 else 0
  }

  /** Moving one thread changes each count by that thread alone. */
  lemma {:induction false} CountsAfterMove(threads: seq<Pc>, t: nat, pc: Pc, inFlight: nat)
    requires t < |threads|
    ensures var moved := threads[t := pc];
            && Holders(moved) + (if HasJob(threads[t]) then 1 else 0)
                 == Holders(threads) + (if HasJob(pc) then 1 else 0)
            && Attempts(moved) + (if Attempting(threads[t]) then 1 else 0)
                 == Attempts(threads) + (if Attempting(pc) then 1 else 0)
            && StaleLoads(moved, inFlight) + (if Stale(threads[t], inFlight) then 1 else 0)
                 == StaleLoads(threads, inFlight) + (if Stale(pc, inFlight) then 1 else 0)
  {
    var moved := threads[t := pc];
    if t == 0 {
      assert moved[1..] == threads[1..];
    } else {
      assert moved[1..] == threads[1..][t - 1 := pc];
      CountsAfterMove(threads[1..], t - 1, pc, inFlight);
    }
  }

  lemma {:induction false} StaleLoadsBound(threads: seq<Pc>, t: nat, inFlight: nat)
    requires t < |threads| && !Stale(threads[t], inFlight)
    ensures StaleLoads(threads, inFlight) <= |threads| - 1
  {
    StaleAtMostAll(threads[1..], inFlight);
    if t == 0 {
    } else {
      StaleLoadsBound(threads[1..], t - 1, inFlight);
    }
  }

  lemma {:induction false} StaleAtMostAll(threads: seq<Pc>, inFlight: nat)
    ensures StaleLoads(threads, inFlight) <= |threads|
  {
    if threads == [] {
    } else {
      StaleAtMostAll(threads[1..], inFlight);
    }
  }

  lemma {:induction false} SomeHolder(threads: seq<Pc>)
    ensures Holders(threads) > 0 <==> exists t :: 0 <= t < |threads| && HasJob(threads[t])
    ensures Holders(threads) <= |threads|
  {
    if threads == [] {
    } else {
      SomeHolder(threads[1..]);
      if HasJob(threads[0]) {
      } else if exists t :: 0 <= t < |threads| && HasJob(threads[t]) {
        var t :| 0 <= t < |threads| && HasJob(threads[t]);
        assert threads[1..][t - 1] == threads[t];
      }
    }
  }

  lemma {:induction false} SomeAttempt(threads: seq<Pc>)
    ensures Attempts(threads) > 0 <==> exists t :: 0 <= t < |threads| && Attempting(threads[t])
  {
    if threads == [] {
    } else {
      SomeAttempt(threads[1..]);
      if Attempting(threads[0]) {
      } else if exists t :: 0 <= t < |threads| && Attempting(threads[t]) {
        var t :| 0 <= t < |threads| && Attempting(threads[t]);
        assert threads[1..][t - 1] == threads[t];
      }
    }
  }

  lemma {:induction false} NobodyYet(n: nat)
    ensures Holders(seq(n, _ => Outside)) == 0 && Attempts(seq(n, _ => Outside)) == 0
  {
    var s := seq(n, _ => Outside);
    if n == 0 {
    } else {
      assert s[1..] == seq(n - 1, _ => Outside);
      NobodyYet(n - 1);
    }
  }

  // ----- the invariant -----

  ghost predicate Inv(p: Pool) {
    && p.maxWorkers >= 1
    && p.inFlight == Holders(p.threads)
    && p.inFlight <= p.maxWorkers
    && p.tally.zeroFinishes == 0
    && forall t :: 0 <= t < |p.threads| && p.threads[t].Seen? ==> p.threads[t].count < p.maxWorkers
  }

  lemma NextKeepsInv(p: Pool, a: Action)
    requires Inv(p)
    ensures Inv(Next(p, a))
  {
    if a.Step? && a.thread < |p.threads| {
      var q := Next(p, a);
      SomeHolder(p.threads);
      CountsAfterMove(p.threads, a.thread, q.threads[a.thread], 0);
      assert q.threads == p.threads[a.thread := q.threads[a.thread]];
    }
  }

  lemma {:induction false} RunKeepsInv(p: Pool, actions: seq<Action>)
    requires Inv(p)
    ensures Inv(Run(p, actions))
    decreases |actions|
  {
    if actions == [] {
    } else {
      NextKeepsInv(p, actions[0]);
      RunKeepsInv(Next(p, actions[0]), actions[1..]);
    }
  }

  /**
   * In every interleaving, `in_flight` is the number of threads that hold a job, it never exceeds the capacity,
   * and no `finish_job` ever meets a zero counter.
   */
  lemma InFlightCountsHolders(maxWorkers: nat, threads: nat, actions: seq<Action>)
    ensures var p := Run(Started(maxWorkers, threads), actions);
            && p.inFlight == Holders(p.threads)
            && p.inFlight <= (if maxWorkers < 1 then 1 else maxWorkers)
            && p.tally.zeroFinishes == 0
  {
    NobodyYet(threads);
    RunKeepsInv(Started(maxWorkers, threads), actions);
    CapacityFixed(Started(maxWorkers, threads), actions);
  }

  lemma {:induction false} CapacityFixed(p: Pool, actions: seq<Action>)
    ensures Run(p, actions).maxWorkers == p.maxWorkers && |Run(p, actions).threads| == |p.threads|
    ensures !p.accepting ==> !Run(p, actions).accepting
    decreases |actions|
  {
    if actions == [] {
    } else {
      CapacityFixed(Next(p, actions[0]), actions[1..]);
    }
  }

  // ----- lock freedom -----

  /** Every lost exchange, and every load doomed to lose, was spoilt by another thread's win. */
  ghost predicate LossesPaid(p: Pool) {
    |p.threads| > 0 ==> p.tally.losses + StaleLoads(p.threads, p.inFlight) <= (|p.threads| - 1) * p.tally.wins
  }

  lemma OneMoreWin(spare: nat, wins: nat)
    ensures spare * (wins + 1) == spare * wins + spare
  {
  }

  /** What one step of a thread does to the tally and to the number of doomed loads. */
  lemma StepPays(p: Pool, t: nat)
    requires t < |p.threads|
    ensures var q := Next(p, Step(t));
            && |q.threads| == |p.threads|
            && (q.tally.wins == p.tally.wins + 1 ==>
                  q.tally.losses == p.tally.losses && StaleLoads(q.threads, q.inFlight) <= |p.threads| - 1)
            && (q.tally.wins != p.tally.wins + 1 ==>
                  && q.tally.wins == p.tally.wins
                  && q.tally.losses + StaleLoads(q.threads, q.inFlight)
                       <= p.tally.losses + StaleLoads(p.threads, p.inFlight))
  {
    var q := Next(p, Step(t));
    CountsAfterMove(p.threads, t, q.threads[t], p.inFlight);
    assert q.threads == p.threads[t := q.threads[t]];
    if q.tally.wins == p.tally.wins + 1 {
      StaleLoadsBound(q.threads, t, q.inFlight);
    }
  }

  lemma NextKeepsLossesPaid(p: Pool, a: Action)
    requires LossesPaid(p)
    ensures LossesPaid(Next(p, a))
  {
    if a.Step? && a.thread < |p.threads| {
      StepPays(p, a.thread);
      OneMoreWin(|p.threads| - 1, p.tally.wins);
    }
  }

  lemma {:induction false} RunKeepsLossesPaid(p: Pool, actions: seq<Action>)
    requires LossesPaid(p)
    ensures LossesPaid(Run(p, actions))
    decreases |actions|
  {
    if actions == [] {
    } else {
      NextKeepsLossesPaid(p, actions[0]);
      RunKeepsLossesPaid(Next(p, actions[0]), actions[1..]);
    }
  }

  /** Over any run of n threads, lost exchanges are at most n-1 times the won ones: somebody always gets through. */
  lemma LossesBoundedByWins(maxWorkers: nat, threads: nat, actions: seq<Action>)
    requires threads > 0
    ensures var p := Run(Started(maxWorkers, threads), actions);
            p.tally.losses <= (threads - 1) * p.tally.wins
  {
    var start := Started(maxWorkers, threads);
    NobodyYet(threads);
    NobodyStale(threads);
    RunKeepsLossesPaid(start, actions);
    CapacityFixed(start, actions);
  }

  lemma {:induction false} NobodyStale(n: nat)
    ensures StaleLoads(seq(n, _ => Outside), 0) == 0
  {
    var s := seq(n, _ => Outside);
    if n == 0 {
    } else {
      assert s[1..] == seq(n - 1, _ => Outside);
      NobodyStale(n - 1);
    }
  }

  // ----- after stop_accepting -----

  /** Jobs in flight and jobs that may still start. */
  function Load(p: Pool): nat {
    p.inFlight + Attempts(p.threads)
  }

  lemma NextAfterStop(p: Pool, a: Action)
    requires Inv(p) && !p.accepting
    ensures var q := Next(p, a);
            && !q.accepting && Load(q) <= Load(p) && Attempts(q.threads) <= Attempts(p.threads)
            && q.tally.starts + Attempts(q.threads) <= p.tally.starts + Attempts(p.threads)
  {
    if a.Step? && a.thread < |p.threads| {
      var q := Next(p, a);
      CountsAfterMove(p.threads, a.thread, q.threads[a.thread], 0);
      assert q.threads == p.threads[a.thread := q.threads[a.thread]];
    }
  }

  /**
   * Once the pool has stopped accepting, at most as many jobs start as threads were already past the acceptance
   * check, and the jobs in flight together with those threads never grow; at zero they stay at zero.
   */
  lemma {:induction false} LateStartsAreBounded(p: Pool, actions: seq<Action>)
    requires Inv(p) && !p.accepting
    ensures var q := Run(p, actions);
            && q.tally.starts <= p.tally.starts + Attempts(p.threads) - Attempts(q.threads)
            && Load(q) <= Load(p) && Attempts(q.threads) <= Attempts(p.threads)
            && (Load(p) == 0 ==> q.inFlight == 0 && q.tally.starts == p.tally.starts)
    decreases |actions|
  {
    if actions == [] {
    } else {
      NextKeepsInv(p, actions[0]);
      NextAfterStop(p, actions[0]);
      LateStartsAreBounded(Next(p, actions[0]), actions[1..]);
    }
  }

  /** Steps in which a job holder gives up its job, and nothing else happens. */
  lemma FreeSlot(p: Pool, h: nat) returns (actions: seq<Action>)
    requires Inv(p) && h < |p.threads| && HasJob(p.threads[h])
    ensures var q := Run(p, actions);
            && Inv(q) && q.accepting == p.accepting && q.inFlight == p.inFlight - 1
            && q.tally.starts == p.tally.starts && q.threads == p.threads[h := Outside]
  {
    var q := Next(p, Step(h));
    SomeHolder(p.threads);
    NextKeepsInv(p, Step(h));
    if p.threads[h].SeenAtFinish? && p.threads[h].top == p.inFlight {
      actions := [Step(h)];
    } else {
      var rest := FreeSlotFromFinishing(if p.threads[h].Finishing? then p else q, h);
      actions := if p.threads[h].Finishing? then rest else [Step(h)] + rest;
      assert ([Step(h)] + rest)[1..] == rest;
    }
    RunKeepsInv(p, actions);
  }

  lemma FreeSlotFromFinishing(p: Pool, h: nat) returns (actions: seq<Action>)
    requires Inv(p) && h < |p.threads| && p.threads[h].Finishing?
    ensures var q := Run(p, actions);
            && q.accepting == p.accepting && q.inFlight == p.inFlight - 1 && q.tally.starts == p.tally.starts
            && q.threads == p.threads[h := Outside]
  {
    SomeHolder(p.threads);
    actions := [Step(h), Step(h)];
    assert actions[1..] == [Step(h)];
    var seen := At(p, h, SeenAtFinish(p.inFlight));
    assert Next(p, Step(h)) == seen;
    assert Run(seen, [Step(h)]) == Next(seen, Step(h));
  }

  /** Steps in which a thread past the look at the accepting flag gets a job. */
  lemma LateStart(p: Pool, t: nat) returns (actions: seq<Action>)
    requires Inv(p) && t < |p.threads| && Attempting(p.threads[t])
    ensures Run(p, actions).tally.starts == p.tally.starts + 1
  {
    if p.threads[t].Seen? {
      var q := Next(p, Step(t));
      NextKeepsInv(p, Step(t));
      if p.threads[t].count == p.inFlight {
        actions := [Step(t)];
      } else {
        var rest := LateStartFromLoad(q, t);
        actions := [Step(t)] + rest;
        assert actions[1..] == rest;
      }
    } else {
      actions := LateStartFromLoad(p, t);
    }
  }

  lemma LateStartFromLoad(p: Pool, t: nat) returns (actions: seq<Action>)
    requires Inv(p) && t < |p.threads| && p.threads[t].Admitted?
    ensures Run(p, actions).tally.starts == p.tally.starts + 1
  {
    var free: seq<Action>, q := [], p;
    if p.inFlight == p.maxWorkers {
      SomeHolder(p.threads);
      var h :| 0 <= h < |p.threads| && HasJob(p.threads[h]);
      free := FreeSlot(p, h);
      q := Run(p, free);
    }
    CapacityFixed(p, free);
    var seen := At(q, t, Seen(q.inFlight));
    assert Next(q, Step(t)) == seen;
    assert [Step(t), Step(t)][1..] == [Step(t)];
    assert Run(seen, [Step(t)]) == Next(seen, Step(t));
    actions := free + [Step(t), Step(t)];
    RunSplits(p, free, [Step(t), Step(t)]);
  }

  /**
   * "No job starts after the stop" is false: a stopped pool can still start a job exactly when some thread was
   * already past the look at the accepting flag.
   */
  lemma LateStartIffSomeAttempt(p: Pool)
    requires Inv(p) && !p.accepting
    ensures (exists actions :: Run(p, actions).tally.starts > p.tally.starts) <==> Attempts(p.threads) > 0
  {
    if Attempts(p.threads) > 0 {
      SomeAttempt(p.threads);
      var t :| 0 <= t < |p.threads| && Attempting(p.threads[t]);
      var actions := LateStart(p, t);
    } else {
      forall actions ensures Run(p, actions).tally.starts <= p.tally.starts {
        LateStartsAreBounded(p, actions);
      }
    }
  }

  /** One thread, admitted before the stop, starts its job after it. */
  lemma JobStartsAfterStop()
    ensures var stopped := Run(Started(1, 1), [Step(0), StopAccepting]);
            && !stopped.accepting && stopped.tally.starts == 0
            && Run(stopped, [Step(0), Step(0)]).tally.starts == 1
  {
  }
}
