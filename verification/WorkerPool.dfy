/** The worker pool and its dispatcher as the code they are; other threads act between any two atomic accesses. */
module WorkerPool {
  import opened PoolSystem

  /** What other threads do in one gap between two atomic accesses of a thread. */
  type Gap = seq<Action>

  predicate OthersOnly(gaps: seq<Gap>, me: nat) {
    forall i, j :: 0 <= i < |gaps| && 0 <= j < |gaps[i]| ==> gaps[i][j] != Step(me)
  }

  function Flatten(gaps: seq<Gap>): Gap {
    if gaps == [] then [] else Flatten(gaps[..|gaps| - 1]) + gaps[|gaps| - 1]
  }

  /** The actions of a trace that are not the given thread's. */
  function Without(trace: seq<Action>, me: nat): seq<Action> {
    if trace == [] then []
    else Without(trace[..|trace| - 1], me) + if trace[|trace| - 1] == Step(me) then [] else [trace[|trace| - 1]]
  }

  function GapAt(gaps: seq<Gap>, k: nat): Gap {
    if k < |gaps| then gaps[k] else []
  }

  lemma {:induction false} WithoutSplits(a: seq<Action>, b: seq<Action>, me: nat)
    ensures Without(a + b, me) == Without(a, me) + Without(b, me)
  {
    if b == [] {
      assert a + b == a;
    } else {
      assert (a + b)[..|a + b| - 1] == a + b[..|b| - 1];
      WithoutSplits(a, b[..|b| - 1], me);
    }
  }

  lemma {:induction false} WithoutOthers(a: seq<Action>, me: nat)
    requires Step(me) !in a
    ensures Without(a, me) == a
  {
    if a == [] {
    } else {
      WithoutOthers(a[..|a| - 1], me);
    }
  }

  lemma {:induction false} OthersKeepPc(p: Pool, actions: seq<Action>, me: nat)
    requires Step(me) !in actions && me < |p.threads|
    ensures |Run(p, actions).threads| == |p.threads| && Run(p, actions).threads[me] == p.threads[me]
    decreases |actions|
  {
    if actions == [] {
    } else {
      OthersKeepPc(Next(p, actions[0]), actions[1..], me);
    }
  }

  /**
   * `trace` leads from `before` to `after` and consists of this thread's own steps and the first `k` gaps, in order.
   */
  ghost predicate Explains(before: Pool, trace: seq<Action>, after: Pool, gaps: seq<Gap>, k: nat, me: nat) {
    k <= |gaps| && after == Run(before, trace) && Without(trace, me) == Flatten(gaps[..k])
  }

  /** The thread's next step is the exchange that gets it a job. */
  predicate AboutToWin(p: Pool, me: nat) {
    me < |p.threads| && p.threads[me] == Seen(p.inFlight)
  }

  /** The thread's next step tells it that there is no job for it: nothing is accepted, or the pool is full. */
  predicate TurnedAway(p: Pool, me: nat) {
    && me < |p.threads|
    && ((p.threads[me].Outside? && !p.accepting) || (p.threads[me].Admitted? && p.inFlight >= p.maxWorkers))
  }

  /** How many jobs thread `me` starts in a run. */
  function OwnStarts(before: Pool, trace: seq<Action>, me: nat): nat {
    if trace == [] then 0
    else
      var n := |trace| - 1;
      OwnStarts(before, trace[..n], me)
      + if trace[n] == Step(me) && AboutToWin(Run(before, trace[..n]), me) then 1 else 0
  }

  /** At some point of a run thread `me` is turned away. */
  ghost predicate RefusedIn(before: Pool, trace: seq<Action>, me: nat) {
    exists n :: 0 <= n < |trace| && trace[n] == Step(me) && TurnedAway(Run(before, trace[..n]), me)
  }

  lemma StepCounts(before: Pool, trace: seq<Action>, me: nat)
    ensures OwnStarts(before, trace + [Step(me)], me)
         == OwnStarts(before, trace, me) + if AboutToWin(Run(before, trace), me) then 1 else 0
    ensures TurnedAway(Run(before, trace), me) ==> RefusedIn(before, trace + [Step(me)], me)
  {
    var longer := trace + [Step(me)];
    assert longer[..|trace|] == trace;
    assert longer[|trace|] == Step(me);
  }

  lemma {:induction false} OwnStartsSplit(before: Pool, a: seq<Action>, b: seq<Action>, me: nat)
    ensures OwnStarts(before, a + b, me) == OwnStarts(before, a, me) + OwnStarts(Run(before, a), b, me)
  {
    if b == [] {
      assert a + b == a;
    } else {
      var n := |b| - 1;
      assert (a + b)[..|a + b| - 1] == a + b[..n] && (a + b)[|a + b| - 1] == b[n];
      RunSplits(before, a, b[..n]);
      OwnStartsSplit(before, a, b[..n], me);
    }
  }

  lemma {:induction false} OthersStartNothing(before: Pool, gap: seq<Action>, me: nat)
    requires Step(me) !in gap
    ensures OwnStarts(before, gap, me) == 0
  {
    if gap == [] {
    } else {
      OthersStartNothing(before, gap[..|gap| - 1], me);
    }
  }

  lemma OwnStep(before: Pool, trace: seq<Action>, at: Pool, gaps: seq<Gap>, k: nat, me: nat)
    requires Explains(before, trace, at, gaps, k, me)
    ensures Explains(before, trace + [Step(me)], Next(at, Step(me)), gaps, k, me)
    ensures OwnStarts(before, trace + [Step(me)], me)
         == OwnStarts(before, trace, me) + if AboutToWin(at, me) then 1 else 0
    ensures TurnedAway(at, me) ==> RefusedIn(before, trace + [Step(me)], me)
  {
    StepCounts(before, trace, me);
    RunSplits(before, trace, [Step(me)]);
    assert Run(at, [Step(me)]) == Next(at, Step(me));
    WithoutSplits(trace, [Step(me)], me);
  }

  lemma GapPasses(before: Pool, trace: seq<Action>, at: Pool, gaps: seq<Gap>, k: nat, me: nat)
    requires Explains(before, trace, at, gaps, k, me) && OthersOnly(gaps, me)
    ensures Explains(before, trace + GapAt(gaps, k), Run(at, GapAt(gaps, k)), gaps, if k < |gaps| then k + 1 else k, me)
    ensures OwnStarts(before, trace + GapAt(gaps, k), me) == OwnStarts(before, trace, me)
  {
    OwnStartsSplit(before, trace, GapAt(gaps, k), me);
    OthersStartNothing(at, GapAt(gaps, k), me);
    if k < |gaps| {
      RunSplits(before, trace, gaps[k]);
      WithoutSplits(trace, gaps[k], me);
      WithoutOthers(gaps[k], me);
      assert gaps[..k + 1][..k] == gaps[..k];
    } else {
      assert trace + [] == trace;
    }
  }

  /** Polling the pool between the given gaps finds the counter at zero at some point. */
  predicate RunsDry(p: Pool, gaps: seq<Gap>)
    decreases |gaps|
  {
    p.inFlight == 0 || (gaps != [] && RunsDry(Run(p, gaps[0]), gaps[1..]))
  }

  class WorkerPool {
    const maxWorkers: nat
    var accepting: bool
    var inFlight: nat
    // The callers' program counters and the event counts are there for the proof; no branch reads them.
    var threads: seq<Pc>
    var tally: Tally

    constructor (maxWorkers: nat, callers: nat)
      ensures View() == Started(maxWorkers, callers)
    {
      this.maxWorkers := if maxWorkers < 1 then 1 else maxWorkers;
      accepting := true;
      inFlight := 0;
      threads := seq(callers, _ => Outside);
      tally := Tally(0, 0, 0, 0);
    }

    function View(): Pool
      reads this
    {
      Pool(maxWorkers, accepting, inFlight, threads, tally)
    }

    method StopAccepting()
      modifies this
      ensures View() == Next(old(View()), PoolSystem.StopAccepting)
    {
      accepting := false;
    }

    /** The other threads' actions in the next gap. */
    method Pause(me: nat, gaps: seq<Gap>, k: nat, ghost before: Pool, ghost trace: seq<Action>)
      returns (next: nat, ghost longer: seq<Action>)
      requires OthersOnly(gaps, me) && me < |threads|
      requires Explains(before, trace, View(), gaps, k, me)
      modifies this
      ensures next == if k < |gaps| then k + 1 else k
      ensures Explains(before, longer, View(), gaps, next, me)
      ensures OwnStarts(before, longer, me) == OwnStarts(before, trace, me)
      ensures |threads| == old(|threads|) && threads[me] == old(threads[me])
      ensures k == |gaps| ==> View() == old(View())
    {
      var others := GapAt(gaps, k);
      OthersKeepPc(View(), others, me);
      GapPasses(before, trace, View(), gaps, k, me);
      longer := trace + others;
      Sleep(others);
      next := if k < |gaps| then k + 1 else k;
    }

    /** Everything up to the thread's next atomic access, which is entered in the trace but still to be made. */
    method Approach(me: nat, gaps: seq<Gap>, k: nat, ghost before: Pool, ghost trace: seq<Action>)
      returns (next: nat, ghost longer: seq<Action>)
      requires OthersOnly(gaps, me) && me < |threads|
      requires Explains(before, trace, View(), gaps, k, me)
      modifies this
      ensures next == if k < |gaps| then k + 1 else k
      ensures Explains(before, longer, Next(View(), Step(me)), gaps, next, me)
      ensures OwnStarts(before, longer, me) == OwnStarts(before, trace, me) + if AboutToWin(View(), me) then 1 else 0
      ensures TurnedAway(View(), me) ==> RefusedIn(before, longer, me)
      ensures |threads| == old(|threads|) && threads[me] == old(threads[me])
      ensures k == |gaps| ==> View() == old(View())
    {
      next, longer := Pause(me, gaps, k, before, trace);
      OwnStep(before, longer, View(), gaps, next, me);
      longer := longer + [Step(me)];
    }

    // The atomic accesses of thread `me`; each comes after a gap in which the other threads act.

    method CheckAccepting(me: nat, gaps: seq<Gap>) returns (accepted: bool, next: nat, ghost longer: seq<Action>)
      requires OthersOnly(gaps, me) && me < |threads| && threads[me].Outside?
      modifies this
      ensures |threads| == old(|threads|) && threads[me] == if accepted then Admitted else Outside
      ensures next == (if gaps == [] then 0 else 1) && Explains(old(View()), longer, View(), gaps, next, me)
      ensures OwnStarts(old(View()), longer, me) == 0 && (!accepted ==> RefusedIn(old(View()), longer, me))
      ensures gaps == [] ==>
        accepted == old(accepting) && inFlight == old(inFlight) && accepting == old(accepting) && tally == old(tally)
    {
      ghost var before := View();
      next, longer := Approach(me, gaps, 0, before, []);
      accepted := accepting;
      threads := threads[me := if accepted then Admitted else Outside];
    }

    method LoadForStart(me: nat, gaps: seq<Gap>, k: nat, ghost before: Pool, ghost trace: seq<Action>)
      returns (current: nat, next: nat, ghost longer: seq<Action>)
      requires OthersOnly(gaps, me) && me < |threads| && threads[me].Admitted?
      requires Explains(before, trace, View(), gaps, k, me)
      modifies this
      ensures |threads| == old(|threads|) && threads[me] == if current >= maxWorkers then Outside else Seen(current)
      ensures next == (if k < |gaps| then k + 1 else k) && Explains(before, longer, View(), gaps, next, me)
      ensures OwnStarts(before, longer, me) == OwnStarts(before, trace, me)
      ensures current >= maxWorkers ==> RefusedIn(before, longer, me)
      ensures current == inFlight
      ensures k == |gaps| ==> inFlight == old(inFlight) && accepting == old(accepting) && tally == old(tally)
    {
      next, longer := Approach(me, gaps, k, before, trace);
      current := inFlight;
      threads := threads[me := if current >= maxWorkers then Outside else Seen(current)];
    }

    method ExchangeUp(me: nat, current: nat, gaps: seq<Gap>, k: nat, ghost before: Pool, ghost trace: seq<Action>)
      returns (won: bool, next: nat, ghost longer: seq<Action>)
      requires OthersOnly(gaps, me) && me < |threads| && threads[me] == Seen(current)
      requires Explains(before, trace, View(), gaps, k, me)
      modifies this
      ensures |threads| == old(|threads|) && threads[me] == if won then Holding else Admitted
      ensures next == (if k < |gaps| then k + 1 else k) && Explains(before, longer, View(), gaps, next, me)
      ensures OwnStarts(before, longer, me) == OwnStarts(before, trace, me) + if won then 1 else 0
      ensures k == |gaps| ==> won == (old(inFlight) == current)
      ensures k == |gaps| && won ==>
        && inFlight == current + 1 && accepting == old(accepting)
        && tally == old(tally).(starts := old(tally).starts + 1, wins := old(tally).wins + 1)
    {
      next, longer := Approach(me, gaps, k, before, trace);
      won := inFlight == current;
      if won {
        inFlight := current + 1;
        tally := tally.(starts := tally.starts + 1, wins := tally.wins + 1);
      } else {
        tally := tally.(losses := tally.losses + 1);
      }
      threads := threads[me := if won then Holding else Admitted];
    }

    method LoadForFinish(me: nat, gaps: seq<Gap>, k: nat, ghost before: Pool, ghost trace: seq<Action>)
      returns (current: nat, next: nat, ghost longer: seq<Action>)
      requires OthersOnly(gaps, me) && me < |threads| && threads[me].Finishing?
      requires Explains(before, trace, View(), gaps, k, me)
      modifies this
      ensures |threads| == old(|threads|) && threads[me] == if current == 0 then Outside else SeenAtFinish(current)
      ensures next == (if k < |gaps| then k + 1 else k) && Explains(before, longer, View(), gaps, next, me)
      ensures OwnStarts(before, longer, me) == OwnStarts(before, trace, me)
      ensures current == inFlight
      ensures k == |gaps| ==>
        inFlight == old(inFlight) && accepting == old(accepting) && (current > 0 ==> tally == old(tally))
    {
      next, longer := Approach(me, gaps, k, before, trace);
      current := inFlight;
      if current == 0 {
        tally := tally.(zeroFinishes := tally.zeroFinishes + 1);
      }
      threads := threads[me := if current == 0 then Outside else SeenAtFinish(current)];
    }

    method ExchangeDown(me: nat, current: Positive, gaps: seq<Gap>, k: nat, ghost before: Pool,
                        ghost trace: seq<Action>)
      returns (won: bool, next: nat, ghost longer: seq<Action>)
      requires OthersOnly(gaps, me) && me < |threads| && threads[me] == SeenAtFinish(current)
      requires Explains(before, trace, View(), gaps, k, me)
      modifies this
      ensures |threads| == old(|threads|) && threads[me] == if won then Outside else Finishing
      ensures next == (if k < |gaps| then k + 1 else k) && Explains(before, longer, View(), gaps, next, me)
      ensures OwnStarts(before, longer, me) == OwnStarts(before, trace, me)
      ensures k == |gaps| ==> won == (old(inFlight) == current)
      ensures k == |gaps| && won ==>
        && inFlight == current - 1 && accepting == old(accepting)
        && tally == old(tally).(wins := old(tally).wins + 1)
    {
      next, longer := Approach(me, gaps, k, before, trace);
      won := inFlight == current;
      if won {
        inFlight := current - 1;
        tally := tally.(wins := tally.wins + 1);
      } else {
        tally := tally.(losses := tally.losses + 1);
      }
      threads := threads[me := if won then Outside else Finishing];
    }

    /**
     * `try_start_job` by thread `me`. Whatever the others do in between, the call is a run of the step system
     * whose other steps are theirs, and it ends: with one job started, which the caller now holds, or with none,
     * after it has been turned away.
     */
    method TryStartJob(me: nat, gaps: seq<Gap>) returns (started: bool, ghost trace: seq<Action>, ghost used: nat)
      requires OthersOnly(gaps, me) && me < |threads| && threads[me].Outside?
      modifies this
      ensures Explains(old(View()), trace, View(), gaps, used, me)
      ensures |threads| == old(|threads|) && threads[me] == if started then Holding else Outside
      ensures OwnStarts(old(View()), trace, me) == if started then 1 else 0
      ensures !started ==> RefusedIn(old(View()), trace, me)
      ensures gaps == [] ==>
        && (started <==> old(accepting) && old(inFlight) < maxWorkers) && accepting == old(accepting)
        && inFlight == old(inFlight) + (if started then 1 else 0)
        && tally == if started then old(tally).(starts := old(tally).starts + 1, wins := old(tally).wins + 1)
                    else old(tally)
    {
      ghost var before := View();
      var accepted, k;
      accepted, k, trace := CheckAccepting(me, gaps);
      if !accepted {
        return false, trace, k;
      }
      while true
        invariant |threads| == old(|threads|) && threads[me] == Admitted
        invariant k <= |gaps| && Explains(before, trace, View(), gaps, k, me)
        invariant OwnStarts(before, trace, me) == 0
        invariant gaps == [] ==> old(accepting) && inFlight == old(inFlight) && accepting && tally == old(tally)
        decreases |gaps| - k
      {
        var current, won;
        current, k, trace := LoadForStart(me, gaps, k, before, trace);
        if current >= maxWorkers {
          return false, trace, k;
        }
        won, k, trace := ExchangeUp(me, current, gaps, k, before, trace);
        if won {
          return true, trace, k;
        }
      }
    }

    method EnterFinish(me: nat, gaps: seq<Gap>) returns (ghost trace: seq<Action>)
      requires me < |threads| && threads[me].Holding?
      modifies this`threads
      ensures threads == old(threads)[me := Finishing]
      ensures Explains(old(View()), trace, View(), gaps, 0, me)
      ensures OwnStarts(old(View()), trace, me) == 0
    {
      assert gaps[..0] == [];
      OwnStep(View(), [], View(), gaps, 0, me);
      trace := [] + [Step(me)];
      threads := threads[me := Finishing];
    }

    /** `finish_job` by thread `me`, which holds a job. */
    method FinishJob(me: nat, gaps: seq<Gap>) returns (ghost trace: seq<Action>, ghost used: nat)
      requires OthersOnly(gaps, me) && me < |threads| && threads[me].Holding?
      modifies this
      ensures Explains(old(View()), trace, View(), gaps, used, me)
      ensures |threads| == old(|threads|) && threads[me] == Outside
      ensures OwnStarts(old(View()), trace, me) == 0
      ensures gaps == [] && old(inFlight) > 0 ==>
        && inFlight == old(inFlight) - 1 && accepting == old(accepting)
        && tally == old(tally).(wins := old(tally).wins + 1)
      ensures gaps == [] && old(inFlight) == 0 ==> inFlight == 0
    {
      ghost var before := View();
      var k := 0;
      trace := EnterFinish(me, gaps);
      while true
        invariant |threads| == old(|threads|) && threads[me] == Finishing
        invariant k <= |gaps| && Explains(before, trace, View(), gaps, k, me)
        invariant OwnStarts(before, trace, me) == 0
        invariant gaps == [] ==> inFlight == old(inFlight) && accepting == old(accepting) && tally == old(tally)
        decreases |gaps| - k
      {
        var current, won;
        current, k, trace := LoadForFinish(me, gaps, k, before, trace);
        if current == 0 {
          return trace, k;
        }
        won, k, trace := ExchangeDown(me, current, gaps, k, before, trace);
        if won {
          return trace, k;
        }
      }
    }

    /** The others act while this thread sleeps. */
    method Sleep(gap: Gap)
      modifies this
      ensures View() == Run(old(View()), gap)
    {
      CapacityFixed(View(), gap);
      var after := Run(View(), gap);
      accepting, inFlight, threads, tally := after.accepting, after.inFlight, after.threads, after.tally;
    }

    /**
     * `drain`: poll until the counter reads zero or the time is up, which here is when the gaps are used up.
     * If nobody can start a job any more, a drain that saw zero is final.
     */
    method Drain(gaps: seq<Gap>) returns (idle: bool, ghost meanwhile: Gap)
      modifies this
      ensures View() == Run(old(View()), meanwhile)
      ensures idle == (inFlight == 0) == RunsDry(old(View()), gaps)
      ensures exists k :: 0 <= k <= |gaps| && meanwhile == Flatten(gaps[..k]) && (idle || k == |gaps|)
                          && forall j :: 0 <= j < k ==> Run(old(View()), Flatten(gaps[..j])).inFlight != 0
      ensures idle && Inv(old(View())) && !old(accepting) && Attempts(old(threads)) == 0 ==> Load(View()) == 0
    {
      var k := 0;
      meanwhile := [];
      while inFlight != 0 && k < |gaps|
        invariant k <= |gaps| && View() == Run(old(View()), meanwhile) && meanwhile == Flatten(gaps[..k])
        invariant forall j :: 0 <= j < k ==> Run(old(View()), Flatten(gaps[..j])).inFlight != 0
        invariant RunsDry(View(), gaps[k..]) == RunsDry(old(View()), gaps)
        decreases |gaps| - k
      {
        RunSplits(old(View()), meanwhile, gaps[k]);
        assert gaps[..k + 1][..k] == gaps[..k];
        Sleep(gaps[k]);
        meanwhile := meanwhile + gaps[k];
        k := k + 1;
      }
      assert k == |gaps| ==> gaps[..k] == gaps;
      idle := inFlight == 0;
      if idle && Inv(old(View())) && !old(accepting) && Attempts(old(threads)) == 0 {
        LateStartsAreBounded(old(View()), meanwhile);
      }
    }
  }

  /** One turn of the dispatcher's loop: what wakes it, and what others do during its calls and its job. */
  datatype Turn = Turn(cancelled: bool, pollingStopped: bool, starting: seq<Gap>, working: Gap, finishing: seq<Gap>)

  /** How many of a turn's gaps have passed, and whether a job was worked on. */
  datatype Use = Use(starting: nat, worked: bool, finishing: nat)

  ghost predicate Fits(turn: Turn, use: Use) {
    use.starting <= |turn.starting| && use.finishing <= |turn.finishing|
  }

  /** What the others have done in a turn. */
  function HeardIn(turn: Turn, use: Use): Gap
    requires Fits(turn, use)
  {
    Flatten(turn.starting[..use.starting])
    + if use.worked then turn.working + Flatten(turn.finishing[..use.finishing]) else []
  }

  ghost predicate OthersTurns(turns: seq<Turn>, me: nat) {
    forall i :: 0 <= i < |turns| ==>
      OthersOnly(turns[i].starting, me) && OthersOnly([turns[i].working], me) && OthersOnly(turns[i].finishing, me)
  }

  /** One turn's part of a run: as many of the thread's own starts as reported, or a refusal. */
  ghost predicate LegTells(before: Pool, leg: seq<Action>, turn: Turn, use: Use, me: nat) {
    && Fits(turn, use) && Without(leg, me) == HeardIn(turn, use)
    && OwnStarts(before, leg, me) == (if use.worked then 1 else 0)
    && (!use.worked ==> RefusedIn(before, leg, me))
  }

  /** Every turn's part of a run tells what was done in it. */
  ghost predicate LegsTell(before: Pool, legs: seq<seq<Action>>, turns: seq<Turn>, uses: seq<Use>, me: nat) {
    && |legs| == |uses| <= |turns|
    && (uses == [] ||
        var n := |uses| - 1;
        && LegsTell(before, legs[..n], turns, uses[..n], me)
        && LegTells(Run(before, Flatten(legs[..n])), legs[n], turns[n], uses[n], me))
  }

  lemma Extend(before: Pool, legs: seq<seq<Action>>, leg: seq<Action>, turns: seq<Turn>, uses: seq<Use>, use: Use,
               me: nat)
    requires LegsTell(before, legs, turns, uses, me) && |uses| < |turns|
    requires LegTells(Run(before, Flatten(legs)), leg, turns[|uses|], use, me)
    ensures LegsTell(before, legs + [leg], turns, uses + [use], me)
    ensures Run(before, Flatten(legs + [leg])) == Run(Run(before, Flatten(legs)), leg)
  {
    assert (legs + [leg])[..|legs|] == legs && (uses + [use])[..|uses|] == uses;
    RunSplits(before, Flatten(legs), leg);
  }

  /** In particular the i-th turn's. */
  lemma {:induction false} LegTellsAt(before: Pool, legs: seq<seq<Action>>, turns: seq<Turn>, uses: seq<Use>, me: nat,
                                      i: nat)
    requires LegsTell(before, legs, turns, uses, me) && i < |uses|
    ensures LegTells(Run(before, Flatten(legs[..i])), legs[i], turns[i], uses[i], me)
    decreases |uses|
  {
    var n := |uses| - 1;
    if i == n {
    } else {
      LegTellsAt(before, legs[..n], turns, uses[..n], me, i);
      assert legs[..n][..i] == legs[..i];
    }
  }

  /** Nobody else acts during the turns. */
  ghost predicate Undisturbed(turns: seq<Turn>) {
    forall i :: 0 <= i < |turns| ==> turns[i].starting == [] && turns[i].working == [] && turns[i].finishing == []
  }

  /** The tally after the given number of jobs, each started and finished without a lost exchange. */
  function JobsDone(t: Tally, n: nat): Tally {
    t.(starts := t.starts + n, wins := t.wins + 2 * n)
  }

  /** Undisturbed turns have all worked or all been turned away, and have left the counter as it was. */
  ghost predicate QuietSoFar(before: Pool, now: Pool, uses: seq<Use>) {
    var worked := before.accepting && before.inFlight < before.maxWorkers;
    && (forall i :: 0 <= i < |uses| ==> uses[i].worked == worked)
    && now.accepting == before.accepting && now.inFlight == before.inFlight
    && now.tally == JobsDone(before.tally, if worked then |uses| else 0)
  }

  /** How far the loop has come after some turns: the run, what it tells, and its effect if nobody disturbed it. */
  ghost predicate Dispatched(before: Pool, now: Pool, legs: seq<seq<Action>>, turns: seq<Turn>, uses: seq<Use>,
                             me: nat) {
    && now == Run(before, Flatten(legs))
    && LegsTell(before, legs, turns, uses, me)
    && (Undisturbed(turns) ==> QuietSoFar(before, now, uses))
  }

  lemma NothingDispatched(before: Pool, turns: seq<Turn>, me: nat)
    ensures Dispatched(before, before, [], turns, [], me)
  {
  }

  lemma QuietOneMore(before: Pool, now: Pool, next: Pool, uses: seq<Use>, use: Use)
    requires QuietSoFar(before, now, uses)
    requires use.worked <==> now.accepting && now.inFlight < before.maxWorkers
    requires next.accepting == now.accepting && next.inFlight == now.inFlight
    requires next.tally == JobsDone(now.tally, if use.worked then 1 else 0)
    ensures QuietSoFar(before, next, uses + [use])
  {
  }

  class WorkerDispatcher {
    var polling: bool

    constructor ()
      ensures polling
    {
      polling := true;
    }

    method StopPolling()
      modifies this
      ensures !polling
    {
      polling := false;
    }

    /** One job of thread `me`, once it has been started: work on it, then give it back. */
    method WorkOff(pool: WorkerPool, me: nat, turn: Turn) returns (ghost trace: seq<Action>, ghost finishing: nat)
      requires OthersOnly([turn.working], me) && OthersOnly(turn.finishing, me)
      requires me < |pool.threads| && pool.threads[me].Holding?
      modifies pool
      ensures pool.View() == PoolSystem.Run(old(pool.View()), trace)
      ensures |pool.threads| == old(|pool.threads|) && pool.threads[me].Outside?
      ensures finishing <= |turn.finishing|
      ensures Without(trace, me) == turn.working + Flatten(turn.finishing[..finishing])
      ensures OwnStarts(old(pool.View()), trace, me) == 0
      ensures turn.working == [] && turn.finishing == [] && old(pool.inFlight) > 0 ==>
        && pool.inFlight == old(pool.inFlight) - 1 && pool.accepting == old(pool.accepting)
        && pool.tally == old(pool.tally).(wins := old(pool.tally).wins + 1)
    {
      ghost var before := pool.View();
      trace := turn.working;
      assert [turn.working][0] == turn.working;
      OthersKeepPc(before, turn.working, me);
      OthersStartNothing(before, turn.working, me);
      WithoutOthers(turn.working, me);
      pool.Sleep(turn.working);
      ghost var at := pool.View();
      ghost var finishTrace;
      finishTrace, finishing := pool.FinishJob(me, turn.finishing);
      RunSplits(before, trace, finishTrace);
      WithoutSplits(trace, finishTrace, me);
      OwnStartsSplit(before, trace, finishTrace, me);
      trace := trace + finishTrace;
    }

    /** The part of a turn that calls the pool: start a job if there is room, work on it, give it back. */
    method Dispatch(pool: WorkerPool, me: nat, turn: Turn) returns (ghost trace: seq<Action>, ghost use: Use)
      requires OthersOnly(turn.starting, me) && OthersOnly([turn.working], me) && OthersOnly(turn.finishing, me)
      requires me < |pool.threads| && pool.threads[me].Outside?
      modifies pool
      ensures pool.View() == PoolSystem.Run(old(pool.View()), trace)
      ensures |pool.threads| == old(|pool.threads|) && pool.threads[me].Outside?
      ensures LegTells(old(pool.View()), trace, turn, use, me)
      ensures turn.starting == [] ==> (use.worked <==> old(pool.accepting) && old(pool.inFlight) < pool.maxWorkers)
      ensures Undisturbed([turn]) ==>
        && pool.inFlight == old(pool.inFlight) && pool.accepting == old(pool.accepting)
        && pool.tally == JobsDone(old(pool.tally), if use.worked then 1 else 0)
    {
      ghost var before := pool.View();
      assert [turn][0] == turn;
      var started, startTrace, startUsed := pool.TryStartJob(me, turn.starting);
      if !started {
        return startTrace, Use(startUsed, false, 0);
      }
      var workTrace, finishUsed := WorkOff(pool, me, turn);
      RunSplits(before, startTrace, workTrace);
      WithoutSplits(startTrace, workTrace, me);
      OwnStartsSplit(before, startTrace, workTrace, me);
      return startTrace + workTrace, Use(startUsed, true, finishUsed);
    }

    /** The same as one more turn of the loop. */
    method TakeTurn(pool: WorkerPool, me: nat, turns: seq<Turn>, i: nat, ghost before: Pool,
                    ghost legs: seq<seq<Action>>, ghost uses: seq<Use>)
      returns (ghost longer: seq<seq<Action>>, ghost more: seq<Use>)
      requires i == |uses| < |turns| && OthersTurns(turns, me) && me < |pool.threads| && pool.threads[me].Outside?
      requires Dispatched(before, pool.View(), legs, turns, uses, me)
      modifies pool
      ensures |more| == i + 1 && Dispatched(before, pool.View(), longer, turns, more, me)
      ensures |pool.threads| == old(|pool.threads|) && pool.threads[me].Outside?
    {
      ghost var now := pool.View();
      CapacityFixed(before, Flatten(legs));
      var leg, use := Dispatch(pool, me, turns[i]);
      Extend(before, legs, leg, turns, uses, use, me);
      if Undisturbed(turns) {
        assert Undisturbed([turns[i]]);
        QuietOneMore(before, now, pool.View(), uses, use);
      }
      longer, more := legs + [leg], uses + [use];
    }

    /**
     * The dispatcher's loop as thread `me`. In every turn up to the first that is cancelled or finds polling
     * stopped it goes to the pool: it starts and finishes a job there, or it is turned away. Between turns it holds
     * none, and when it has ended it is not polling. The pool goes through a run of the step system whose other
     * steps are those of the turns' gaps, in their order.
     */
    method Run(pool: WorkerPool, me: nat, turns: seq<Turn>)
      returns (ended: bool, ghost legs: seq<seq<Action>>, ghost uses: seq<Use>)
      requires OthersTurns(turns, me) && me < |pool.threads| && pool.threads[me].Outside?
      modifies this, pool
      ensures Dispatched(old(pool.View()), pool.View(), legs, turns, uses, me)
      ensures me < |pool.threads| && pool.threads[me].Outside?
      ensures |uses| <= |turns|
      ensures forall i :: 0 <= i < |uses| ==> old(polling) && !turns[i].cancelled && !turns[i].pollingStopped
      ensures |uses| < |turns| ==> !old(polling) || turns[|uses|].cancelled || turns[|uses|].pollingStopped
      ensures ended <==> |uses| < |turns|
      ensures polling == (old(polling) && !ended)
    {
      ghost var before := pool.View();
      legs, uses := [], [];
      NothingDispatched(before, turns, me);
      for i := 0 to |turns|
        invariant Dispatched(before, pool.View(), legs, turns, uses, me) && |uses| == i
        invariant me < |pool.threads| && pool.threads[me].Outside?
        invariant forall j :: 0 <= j < i ==> old(polling) && !turns[j].cancelled && !turns[j].pollingStopped
        invariant polling == old(polling)
      {
        var turn := turns[i];
        if turn.cancelled {
          StopPolling();
          return true, legs, uses;
        }
        if turn.pollingStopped {
          StopPolling();
        }
        if !polling {
          return true, legs, uses;
        }
        legs, uses := TakeTurn(pool, me, turns, i, before, legs, uses);
      }
      return false, legs, uses;
    }
  }
}
