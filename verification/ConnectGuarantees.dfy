/** What the reconnect loop promises over every run, for every sequence of inputs. */
module ConnectGuarantees {
  import opened ConnectLoop
  import opened Registry
  import opened Results
  import opened Text

  lemma ReachableSatisfiesInv(c: Config, ticks: seq<Tick>)
    requires ValidConfig(c)
    ensures Inv(c, Run(c, Start(c), ticks))
  {
    RunKeepsInv(c, Start(c), ticks);
  }

  lemma {:induction false} SoundAt(c: Config, log: seq<Event>, i: nat)
    requires Sound(c, log) && i < |log|
    ensures Sound(c, log[..i]) && Admissible(c, Summarise(log[..i]), log[i])
  {
    if i == |log| - 1 {
    } else {
      SoundAt(c, log[..|log| - 1], i);
      assert log[..|log| - 1][..i] == log[..i];
    }
  }

  /**
   * The outer backoff is base * 2^f capped at max, where f counts the retry sleeps and exhausted passes since the
   * start or the last ended session; every retry sleep lasts exactly that long.
   */
  lemma BackoffHasClosedForm(c: Config, ticks: seq<Tick>, i: nat)
    requires ValidConfig(c)
    ensures var s := Run(c, Start(c), ticks);
            && s.backoff == Min(c.baseBackoff * Pow2(Summarise(s.log).failures), c.maxBackoff)
            && (i < |s.log| && s.log[i].RetrySleepStarted? ==>
                  s.log[i].duration == Min(c.baseBackoff * Pow2(Summarise(s.log[..i]).failures), c.maxBackoff))
  {
    ReachableSatisfiesInv(c, ticks);
    var s := Run(c, Start(c), ticks);
    BackoffClosedForm(c, Summarise(s.log).failures);
    if i < |s.log| {
      SoundAt(c, s.log, i);
      BackoffClosedForm(c, Summarise(s.log[..i]).failures);
    }
  }

  /**
   * The k-th failover of a pass sleeps at least as long as both backoffs ask for, and at most six fifths of the
   * cap, whatever the clock says.
   */
  lemma FailoverSleepIsBounded(c: Config, ticks: seq<Tick>, i: nat)
    requires ValidConfig(c)
    requires var log := Run(c, Start(c), ticks).log; i < |log| && log[i].FailoverSleepStarted?
    ensures var log := Run(c, Start(c), ticks).log;
            var u := Summarise(log[..i]);
            && log[i].position == u.sleeps
            && Min(c.baseBackoff * Pow2(u.sleeps), c.maxBackoff) <= log[i].duration
            && Min(c.baseBackoff * Pow2(u.failures), c.maxBackoff) <= log[i].duration
            && 0 < log[i].duration && 5 * log[i].duration <= 6 * c.maxBackoff
  {
    ReachableSatisfiesInv(c, ticks);
    var log := Run(c, Start(c), ticks).log;
    SoundAt(c, log, i);
    BackoffClosedForm(c, Summarise(log[..i]).sleeps);
    BackoffClosedForm(c, Summarise(log[..i]).failures);
  }

  /** Within a pass, sessions go to the candidates in order, each at most once. */
  lemma PassFollowsCandidates(c: Config, ticks: seq<Tick>, i: nat)
    requires ValidConfig(c)
    requires var log := Run(c, Start(c), ticks).log; i < |log| && log[i].SessionStarted?
    ensures var log := Run(c, Start(c), ticks).log;
            var u := Summarise(log[..i]);
            u.current.Some? && u.tried + [log[i].target] <= u.current.value.candidates
  {
    ReachableSatisfiesInv(c, ticks);
    var log := Run(c, Start(c), ticks).log;
    SoundAt(c, log, i);
    TriedIsPrefix(c, log[..i]);
  }

  /** An exhausted pass over n candidates has tried them all, once each, and slept n-1 times within its bound. */
  lemma ExhaustedPassTriedAll(c: Config, ticks: seq<Tick>, i: nat)
    requires ValidConfig(c)
    requires var log := Run(c, Start(c), ticks).log; i < |log| && log[i].PassExhausted?
    ensures var u := Summarise(Run(c, Start(c), ticks).log[..i]);
            && u.current.Some? && u.tried == u.current.value.candidates && u.sleeps == |u.tried| - 1
            && 5 * u.slept <= 6 * c.maxBackoff * (|u.tried| - 1)
  {
    ReachableSatisfiesInv(c, ticks);
    SoundAt(c, Run(c, Start(c), ticks).log, i);
  }

  // ----- the length of a pass -----

  predicate InPass(pc: Pc) {
    pc.InSession? || pc.FailoverWait?
  }

  /** Steps that a pass can still take: two for each target that remains, less the wait before a session under way. */
  function PassRank(s: State): nat {
    var remaining := if s.selector.index < |s.selector.targets| then |s.selector.targets| - s.selector.index else 0;
    if s.pc.FailoverWait? then 2 * remaining
    else if s.pc.InSession? && remaining > 0 then 2 * remaining - 1
    else 0
  }

  lemma PassRankDrops(c: Config, s: State, t: Tick)
    requires InPass(s.pc) && s.selector.index < |s.selector.targets|
    ensures var n := Next(c, s, t);
            InPass(n.pc) ==> n.selector.index < |n.selector.targets| && PassRank(n) < PassRank(s)
  {
  }

  /** Whatever happens, a pass is over after at most as many steps as its rank. */
  lemma {:induction false} PassEnds(c: Config, s: State, ticks: seq<Tick>) returns (k: nat)
    requires InPass(s.pc) ==> s.selector.index < |s.selector.targets|
    requires PassRank(s) <= |ticks|
    ensures k <= PassRank(s) && !InPass(Run(c, s, ticks[..k]).pc)
    ensures forall j :: 0 <= j < k ==> InPass(Run(c, s, ticks[..j]).pc)
    decreases |ticks|
  {
    if !InPass(s.pc) {
      k := 0;
    } else {
      var n := Next(c, s, ticks[0]);
      PassRankDrops(c, s, ticks[0]);
      var rest := PassEnds(c, n, ticks[1..]);
      k := rest + 1;
      forall j | 0 < j <= k ensures Run(c, s, ticks[..j]) == Run(c, n, ticks[1..][..j - 1]) {
        assert ticks[..j][1..] == ticks[1..][..j - 1];
      }
    }
  }

  /**
   * A pass over n candidates is over within 2n - 1 steps of its adoption, for all inputs: what is left of the
   * candidates is a measure that every failed session brings down.
   */
  lemma PassOverNEndsWithin2N(c: Config, ticks: seq<Tick>, more: seq<Tick>) returns (k: nat)
    requires ValidConfig(c)
    requires var s := Run(c, Start(c), ticks); s.pc.InSession? && s.selector.index == 0
    requires |more| >= 2 * |Run(c, Start(c), ticks).selector.targets|
    ensures var s := Run(c, Start(c), ticks);
            && k <= 2 * |s.selector.targets| - 1
            && !InPass(Run(c, s, more[..k]).pc) && forall j :: 0 <= j < k ==> InPass(Run(c, s, more[..j]).pc)
  {
    ReachableSatisfiesInv(c, ticks);
    k := PassEnds(c, Run(c, Start(c), ticks), more);
  }

  /**
   * The failure that exhausts a pass leads to the next resolve without any sleep: two steps later, unless the
   * shutdown is requested or there is no identity, the loop awaits it and has logged nothing but the exhaustion.
   */
  lemma ExhaustedPassResolvesAtOnce(c: Config, s: State, last: Tick, top: Tick, identity: Tick)
    requires s.pc.InSession? && s.selector.index + 1 >= |s.selector.targets| > 0
    requires last.session.Failed? && !IsFatal(last.session.status)
    ensures var exhausted := Next(c, s, last);
            var next := Next(c, Next(c, exhausted, top), identity);
            && exhausted.log[|exhausted.log| - 1] == PassExhausted
            && (next.pc.AwaitResolve? <==> !exhausted.cancelled && !top.cancel && identity.identityOk)
            && (next.pc.AwaitResolve? && !identity.cancel ==> next.log == exhausted.log)
  {
  }

  /**
   * A session that ends because the assignment changed fails without a status. The loop then goes on to the next of
   * the old candidates; a new resolve has to wait until those are used up.
   */
  lemma ChangedAssignmentStaysInPass(c: Config, s: State, t: Tick)
    requires s.pc.InSession? && t.session == Failed(None)
    ensures var next := Next(c, s, t);
            if s.selector.index + 1 < |s.selector.targets|
            then next.pc.FailoverWait? && next.cache == s.cache
                 && next.selector.targets == s.selector.targets && next.selector.index == s.selector.index + 1
            else next.pc.AtTop? && next.cache.None?
  {
  }

  // ----- what one step decides -----

  /** The loop ends exactly if cancelled at its top or in a failover's wait, for want of an identity, or fatally. */
  lemma LoopEndsIff(c: Config, s: State, t: Tick)
    requires !s.pc.Exited?
    ensures var n, cancelled := Next(c, s, t), s.cancelled || t.cancel;
            && (n.pc == Exited(IdentityFailed) <==> s.pc.AwaitIdentity? && !t.identityOk)
            && (n.pc == Exited(FatalStatus) <==>
                  s.pc.InSession? && t.session.Failed?
                  && (t.session.status == Some(Unauthenticated) || t.session.status == Some(InvalidArgument)))
            && (n.pc == Exited(Stopped) <==>
                  cancelled && (s.pc.AtTop? || (s.pc.FailoverWait? && (s.pc.alreadyCancelled || !t.woken))))
  {
  }

  /** A response with a candidate is adopted as it came, and the pass begins with the first candidate at once. */
  lemma ResolveRenews(c: Config, s: State, t: Tick)
    requires s.pc.AwaitResolve? && !t.cancel && t.resolve.Ok?
    requires || Trim(t.resolve.value.preferredDpAddr) != ""
             || exists i :: 0 <= i < |t.resolve.value.candidateAddrs| && Trim(t.resolve.value.candidateAddrs[i]) != ""
    ensures var n := Next(c, s, t);
            && n.pc.InSession? && n.cache.Some? && MadeFrom(n.cache.value, t.resolve.value, t.now)
            && n.cache.value.candidates != []
            && n.log == s.log + [Adopted(n.cache.value, true, t.now)] + [SessionStarted(n.cache.value.candidates[0])]
  {
    assert Candidates(t.resolve.value) != [] by {
      RefusedIffAllBlank(t.resolve.value);
    }
    ResolvedIsMadeFrom(t.resolve.value, t.now);
    assert Next(c, s, t) == Adopt(c, s, Resolved(t.resolve.value, t.now), true, t.now);
  }

  /** Without one the cached assignment is used while it lasts, and only without either the loop sleeps. */
  lemma ResolveFallsBack(c: Config, s: State, t: Tick)
    requires s.pc.AwaitResolve? && !t.cancel && (s.cache.Some? ==> s.cache.value.candidates != [])
    requires t.resolve.Ok? ==>
               && Trim(t.resolve.value.preferredDpAddr) == ""
               && forall i :: 0 <= i < |t.resolve.value.candidateAddrs| ==>
                    Trim(t.resolve.value.candidateAddrs[i]) == ""
    ensures var n := Next(c, s, t);
            if s.cache.Some? && t.now < s.cache.value.expiresAt then
              && n.pc.InSession? && n.cache == s.cache
              && n.log == s.log + [Adopted(s.cache.value, false, t.now)] + [SessionStarted(s.cache.value.candidates[0])]
            else n == s.(pc := RetrySleep, log := s.log + [RetrySleepStarted(s.backoff)])
  {
    assert t.resolve.Err? || Candidates(t.resolve.value) == [] by {
      if t.resolve.Ok? {
        RefusedIffAllBlank(t.resolve.value);
      }
    }
  }

  /**
   * The end of a session: an orderly one resets both backoffs and starts over with the cached assignment kept; a
   * failure that is not fatal sleeps for the larger of the outer backoff and the jittered selector's, with the next
   * target up, or gives up the cache after the last one.
   */
  lemma SessionEndDecides(c: Config, s: State, t: Tick)
    requires s.pc.InSession? && !t.cancel && s.selector.index < |s.selector.targets|
    ensures var n := Next(c, s, t);
            var own := s.selector.backoff;
            var jittered := own + if own >= 5 then t.subsecMillis % (own / 5) else 0;
            var doubled := if 2 * s.backoff < c.maxBackoff then 2 * s.backoff else c.maxBackoff;
            && (t.session.Ended? ==>
                  n.pc.AtTop? && n.backoff == c.baseBackoff && n.cache == s.cache && n.log == s.log + [SessionEnded])
            && (t.session == Failed(Some(PermissionDenied)) || t.session == Failed(Some(OtherCode))
                || t.session == Failed(None) ==>
                  if s.selector.index + 1 < |s.selector.targets| then
                    && n.pc == FailoverWait(s.cancelled) && n.backoff == s.backoff && n.cache == s.cache
                    && n.selector.index == s.selector.index + 1 && n.selector.targets == s.selector.targets
                    && n.log == s.log + [FailoverSleepStarted(if jittered < s.backoff then s.backoff else jittered,
                                                              s.selector.index)]
                  else
                    n.pc.AtTop? && n.backoff == doubled && n.cache == None && n.log == s.log + [PassExhausted])
  {
    FailoverDelayBounds(s.selector.backoff, t.subsecMillis);
  }

  /** Sleeps end: a retry doubles the outer backoff up to its cap, a failover goes on with the target that is up. */
  lemma SleepEndDecides(c: Config, s: State, t: Tick)
    requires !t.cancel && !s.cancelled
    ensures var n := Next(c, s, t);
            && (s.pc.RetrySleep? ==>
                  && n.pc.AtTop? && n.cache == s.cache && n.log == s.log + [RetrySleepEnded]
                  && n.backoff == if 2 * s.backoff < c.maxBackoff then 2 * s.backoff else c.maxBackoff)
            && (s.pc.FailoverWait? && s.selector.index < |s.selector.targets| ==>
                  n == s.(pc := InSession, log := s.log + [SessionStarted(s.selector.targets[s.selector.index])]))
            && (s.pc.AtTop? ==> n == s.(pc := AwaitIdentity))
            && (s.pc.AwaitIdentity? && t.identityOk ==> n == s.(pc := AwaitResolve))
  {
  }

  ghost predicate TriedInOrder(u: Summary) {
    u.tried != [] ==> u.current.Some? && u.tried <= u.current.value.candidates
  }

  lemma AbsorbKeepsOrder(c: Config, u: Summary, e: Event)
    requires Admissible(c, u, e) && TriedInOrder(u)
    ensures TriedInOrder(Absorb(u, e))
  {
    if e.SessionStarted? {
      var candidates := u.current.value.candidates;
      assert u.tried == candidates[..|u.tried|];
      assert u.tried + [e.target] == candidates[..|u.tried| + 1];
    }
  }

  lemma {:induction false} TriedIsPrefix(c: Config, log: seq<Event>)
    requires Sound(c, log)
    ensures TriedInOrder(Summarise(log))
  {
    if log == [] {
    } else {
      var n := |log| - 1;
      TriedIsPrefix(c, log[..n]);
      AbsorbKeepsOrder(c, Summarise(log[..n]), log[n]);
    }
  }

  /**
   * Every adopted assignment is usable and either just resolved or the cached one before its expiry, which is twice
   * the refresh period, at least ten seconds, after the moment it was last resolved. What it consists of comes from
   * a response as `MadeFrom` says, its candidates in particular.
   */
  lemma AdoptionsAreFresh(c: Config, ticks: seq<Tick>, i: nat)
    requires ValidConfig(c)
    requires var log := Run(c, Start(c), ticks).log; i < |log| && log[i].Adopted?
    ensures var log := Run(c, Start(c), ticks).log;
            var u, e := Summarise(log[..i]), log[i];
            && e.assignment.candidates != []
            && (e.renewed ==> ResolvedAt(e.assignment, e.at))
            && (!e.renewed ==> u.cached == Some(e.assignment) && ResolvedAt(e.assignment, u.renewedAt)
                               && e.at < e.assignment.expiresAt)
            && e.assignment.refreshAfter >= 5
            && e.assignment.expiresAt == (if e.renewed then e.at else u.renewedAt) + 2000 * e.assignment.refreshAfter
  {
    ReachableSatisfiesInv(c, ticks);
    SoundAt(c, Run(c, Start(c), ticks).log, i);
  }

  /** An exhausted pass throws the cached assignment away: the next one adopted is newly resolved. */
  lemma AdoptionAfterExhaustionIsRenewed(c: Config, ticks: seq<Tick>, i: nat, j: nat)
    requires ValidConfig(c)
    requires var log := Run(c, Start(c), ticks).log;
             i < j < |log| && log[i].PassExhausted? && log[j].Adopted?
             && forall k :: i < k < j ==> !log[k].Adopted?
    ensures Run(c, Start(c), ticks).log[j].renewed
  {
    ReachableSatisfiesInv(c, ticks);
    var log := Run(c, Start(c), ticks).log;
    SoundAt(c, log, j);
    StaysUncached(log, i, j);
  }

  lemma {:induction false} StaysUncached(log: seq<Event>, i: nat, j: nat)
    requires i < j <= |log| && log[i].PassExhausted? && forall k :: i < k < j ==> !log[k].Adopted?
    ensures Summarise(log[..j]).cached == None
  {
    assert log[..j][..j - 1] == log[..j - 1];
    if i == j - 1 {
    } else {
      StaysUncached(log, i, j - 1);
    }
  }

  // ----- cancellation -----

  /** Sessions and retry sleeps begun in a stretch of the log. */
  function Begun(log: seq<Event>): nat {
    if log == [] then 0
    else
      var e := log[|log| - 1];
      Begun(log[..|log| - 1]) + if e.SessionStarted? || e.RetrySleepStarted? then 1 else 0
  }

  lemma {:induction false} BegunSinceCancel(c: Config, log: seq<Event>, i: nat)
    requires Sound(c, log) && i < |log| && log[i].CancelRequested?
    ensures Summarise(log).cancelled && Summarise(log).startedSince == Begun(log[i + 1..])
  {
    var n := |log| - 1;
    if i < n {
      BegunSinceCancel(c, log[..n], i);
      var since := log[i + 1..];
      assert log[..n][i + 1..] == since[..|since| - 1] && since[|since| - 1] == log[n];
      assert Begun(since) == Begun(since[..|since| - 1])
                             + if log[n].SessionStarted? || log[n].RetrySleepStarted? then 1 else 0;
    } else {
      assert log[i + 1..] == [];
    }
  }

  /**
   * After the shutdown token is cancelled the loop begins at most one more thing that it cannot interrupt: either
   * one session or one retry sleep, not both.
   */
  lemma CancellationBeginsAtMostOne(c: Config, ticks: seq<Tick>, i: nat)
    requires ValidConfig(c)
    requires var log := Run(c, Start(c), ticks).log; i < |log| && log[i].CancelRequested?
    ensures Begun(Run(c, Start(c), ticks).log[i + 1..]) <= 1
  {
    ReachableSatisfiesInv(c, ticks);
    BegunSinceCancel(c, Run(c, Start(c), ticks).log, i);
  }

  /** Steps a cancelled loop can still take. */
  function Rank(pc: Pc): nat {
    match pc
    case Exited(_) => 0
    case AtTop => 1
    case RetrySleep => 2
    case FailoverWait(already) => if already then 2 else 4
    case InSession => 3
    case AwaitResolve => 4
    case AwaitIdentity => 5
  }

  lemma RankDrops(c: Config, s: State, t: Tick)
    requires s.cancelled && !s.pc.Exited?
    ensures Next(c, s, t).cancelled && Rank(Next(c, s, t).pc) < Rank(s.pc)
  {
  }

  /** A cancelled loop ends within five further steps, whatever its inputs. */
  lemma {:induction false} CancelledLoopEnds(c: Config, s: State, ticks: seq<Tick>)
    requires s.cancelled && Rank(s.pc) <= |ticks|
    ensures Run(c, s, ticks).pc.Exited?
    decreases |ticks|
  {
    if ticks == [] {
    } else {
      if !s.pc.Exited? {
        RankDrops(c, s, ticks[0]);
      }
      CancelledLoopEnds(c, Next(c, s, ticks[0]), ticks[1..]);
    }
  }
}
