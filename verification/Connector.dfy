/** `connect_hypervisor` as the nested loops it is, tied to the state machine step by step. */
module Connector {
  import opened ConnectLoop
  import opened Registry
  import opened Results

  lemma {:induction false} RunOneMore(c: Config, s: State, ticks: seq<Tick>, k: nat)
    requires k < |ticks|
    ensures Run(c, s, ticks[..k + 1]) == Next(c, Run(c, s, ticks[..k]), ticks[k])
    decreases k
  {
    var head := ticks[..k + 1];
    if k == 0 {
      assert head[1..] == [];
    } else {
      assert head[1..] == ticks[1..][..k] && ticks[..k][1..] == ticks[1..][..k - 1];
      RunOneMore(c, Next(c, s, ticks[0]), ticks[1..], k - 1);
    }
  }

  lemma {:induction false} ExitIsFinal(c: Config, s: State, ticks: seq<Tick>, k: nat)
    requires k <= |ticks| && Run(c, s, ticks[..k]).pc.Exited?
    ensures Run(c, s, ticks) == Run(c, s, ticks[..k])
    decreases |ticks| - k
  {
    if k < |ticks| {
      RunOneMore(c, s, ticks, k);
      ExitIsFinal(c, s, ticks, k + 1);
    } else {
      assert ticks[..k] == ticks;
    }
  }

  /** The machine's state after the first `k` inputs. */
  function After(c: Config, ticks: seq<Tick>, k: nat): State
    requires k <= |ticks|
  {
    Run(c, Start(c), ticks[..k])
  }

  /** What a run of the loop shows: its log, and how it has ended if it has. */
  ghost predicate Shows(s: State, exit: Option<Exit>, log: seq<Event>) {
    log == s.log && exit == if s.pc.Exited? then Some(s.pc.exit) else None
  }

  /**
   * One pass over the candidates: the inner loop of `connect_hypervisor`, with the selector object and the two
   * backoffs as it keeps them. It stops where the machine's pass stops.
   */
  method RunPass(c: Config, ticks: seq<Tick>, from: nat, isCancelled: bool, assignment: Assignment, outer: nat,
                 logged: seq<Event>)
    returns (k: nat, pc: Pc, cancelled: bool, cache: Option<Assignment>, backoff: nat, log: seq<Event>,
             ghost selectorView: Selector)
    requires ValidConfig(c) && from <= |ticks| && assignment.candidates != []
    requires After(c, ticks, from) == State(InSession, isCancelled, Some(assignment), outer,
                                            Selector(assignment.candidates, 0, c.baseBackoff), logged)
    ensures k <= |ticks| && After(c, ticks, k) == State(pc, cancelled, cache, backoff, selectorView, log)
    ensures k == |ticks| || pc.AtTop? || pc.Exited?
    ensures from <= k && (k == from ==> k == |ticks|)
  {
    k, cancelled, cache, backoff, log := from, isCancelled, Some(assignment), outer, logged;
    var selector := new RuntimeTargetSelector(assignment.candidates, c);
    while selector.Current().Some?
      invariant from <= k <= |ticks| && selector.Valid() && selector.config == c && fresh(selector)
      invariant selector.targets != []
      invariant After(c, ticks, k) == State(InSession, cancelled, cache, backoff, selector.View(), log)
      decreases |ticks| - k
    {
      if k == |ticks| {
        return k, InSession, cancelled, cache, backoff, log, selector.View();
      }
      var t := ticks[k];
      RunOneMore(c, Start(c), ticks, k);
      k := k + 1;
      if t.cancel && !cancelled {
        cancelled, log := true, log + [CancelRequested];
      }
      match t.session {
        case Ended =>
          selector.ResetBackoff();
          backoff, log := c.baseBackoff, log + [SessionEnded];
          return k, AtTop, cancelled, cache, backoff, log, selector.View();
        case Failed(status) =>
          if IsFatal(status) {
            return k, Exited(FatalStatus), cancelled, cache, backoff, log, selector.View();
          }
          var position := selector.index;
          var retryIn := Max(FailoverDelay(selector.backoff, t.subsecMillis), backoff);
          selector.Advance();
          if selector.Current().None? {
            cache, backoff := None, Min(backoff * 2, c.maxBackoff);
            log := log + [PassExhausted];
            return k, AtTop, cancelled, cache, backoff, log, selector.View();
          }
          log := log + [FailoverSleepStarted(retryIn, position)];
          var already := cancelled;
          if k == |ticks| {
            return k, FailoverWait(already), cancelled, cache, backoff, log, selector.View();
          }
          var w := ticks[k];
          RunOneMore(c, Start(c), ticks, k);
          k := k + 1;
          if w.cancel && !cancelled {
            cancelled, log := true, log + [CancelRequested];
          }
          if cancelled && (already || !w.woken) {
            return k, Exited(Stopped), cancelled, cache, backoff, log, selector.View();
          }
          log := log + [SessionStarted(selector.Current().value)];
      }
    }
  }

  /** The assignment for the next pass: a newly resolved one, else the cached one while it lasts, else none. */
  method ChooseAssignment(cache: Option<Assignment>, resolve: Result<Response>, now: int)
    returns (choice: Option<Assignment>, renewed: bool)
    ensures choice.Some? ==> choice.value.candidates != []
    ensures renewed <==> resolve.Ok? && Candidates(resolve.value) != []
    ensures renewed ==> choice == Some(Resolved(resolve.value, now))
    ensures !renewed ==>
      choice == if cache.Some? && now < cache.value.expiresAt && cache.value.candidates != [] then cache else None
  {
    if resolve.Ok? {
      var resolved := ResolveAssignment(resolve.value, now);
      if resolved.Ok? {
        return Some(resolved.value), true;
      }
    }
    if cache.Some? && now < cache.value.expiresAt && cache.value.candidates != [] {
      return cache, false;
    }
    return None, false;
  }

  /** The start of a round: leave if the shutdown has been requested, else make sure of an identity. */
  method BeginRound(c: Config, ticks: seq<Tick>, from: nat, isCancelled: bool, logged: seq<Event>, ghost s: State)
    returns (k: nat, pc: Pc, cancelled: bool, log: seq<Event>)
    requires from < |ticks| && After(c, ticks, from) == s
    requires s.pc.AtTop? && s.cancelled == isCancelled && s.log == logged
    ensures from < k <= |ticks| && After(c, ticks, k) == s.(pc := pc, cancelled := cancelled, log := log)
    ensures k == |ticks| || pc.AwaitResolve? || pc.Exited?
    ensures pc.AwaitIdentity? || pc.AwaitResolve? || pc.Exited?
  {
    k, cancelled, log := from, isCancelled, logged;
    RunOneMore(c, Start(c), ticks, k);
    if ticks[k].cancel && !cancelled {
      cancelled, log := true, log + [CancelRequested];
    }
    k := k + 1;
    if cancelled {
      return k, Exited(Stopped), cancelled, log;
    }
    if k == |ticks| {
      return k, AwaitIdentity, cancelled, log;
    }
    RunOneMore(c, Start(c), ticks, k);
    if ticks[k].cancel {
      cancelled, log := true, log + [CancelRequested];
    }
    pc := if ticks[k].identityOk then AwaitResolve else Exited(IdentityFailed);
    return k + 1, pc, cancelled, log;
  }

  /** `connect_hypervisor` after its set-up: the outer loop. Without an exit it is still running when inputs end. */
  method ConnectHypervisor(c: Config, ticks: seq<Tick>) returns (exit: Option<Exit>, log: seq<Event>)
    requires ValidConfig(c)
    ensures Shows(Run(c, Start(c), ticks), exit, log)
  {
    assert ticks[..|ticks|] == ticks;
    var cancelled, cache: Option<Assignment>, backoff := false, None, c.baseBackoff;
    ghost var view := Selector([], 0, c.baseBackoff);
    var k := 0;
    log := [];
    while k < |ticks|
      invariant k <= |ticks| && After(c, ticks, k) == State(AtTop, cancelled, cache, backoff, view, log)
      decreases |ticks| - k
    {
      var pc;
      k, pc, cancelled, log := BeginRound(c, ticks, k, cancelled, log, After(c, ticks, k));
      if pc.Exited? {
        ExitIsFinal(c, Start(c), ticks, k);
        return Some(pc.exit), log;
      }
      if k == |ticks| {
        return None, log;
      }

      RunOneMore(c, Start(c), ticks, k);
      if ticks[k].cancel && !cancelled {
        cancelled, log := true, log + [CancelRequested];
      }
      var now := ticks[k].now;
      var choice, renewed := ChooseAssignment(cache, ticks[k].resolve, now);
      k := k + 1;
      if choice.None? {
        log := log + [RetrySleepStarted(backoff)];
        if k == |ticks| {
          return None, log;
        }
        RunOneMore(c, Start(c), ticks, k);
        if ticks[k].cancel && !cancelled {
          cancelled, log := true, log + [CancelRequested];
        }
        k := k + 1;
        backoff, log := Min(backoff * 2, c.maxBackoff), log + [RetrySleepEnded];
        continue;
      }

      var assignment := choice.value;
      log := log + [Adopted(assignment, renewed, now)] + [SessionStarted(assignment.candidates[0])];
      k, pc, cancelled, cache, backoff, log, view := RunPass(c, ticks, k, cancelled, assignment, backoff, log);
      if pc.Exited? {
        ExitIsFinal(c, Start(c), ticks, k);
        return Some(pc.exit), log;
      }
      if !pc.AtTop? {
        return None, log;
      }
    }
    return None, log;
  }
}
