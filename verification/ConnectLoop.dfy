/**
 * The reconnect loop of `connect_hypervisor` as a state machine with one step per await or decision. Whatever the
 * loop depends on arrives as a tick; the log records what the loop does.
 */
module ConnectLoop {
  import opened Registry
  import opened Results

  datatype Code = Unauthenticated | InvalidArgument | PermissionDenied | OtherCode

  /** How a session ends; a failure may carry a gRPC status in its error chain. */
  datatype SessionResult = Ended | Failed(status: Option<Code>)

  predicate IsFatal(status: Option<Code>) {
    status == Some(Unauthenticated) || status == Some(InvalidArgument)
  }

  /** One step's inputs; each step looks only at those it needs. `cancel` asks for the shutdown just before it. */
  datatype Tick = Tick(
    cancel: bool,
    identityOk: bool,
    resolve: Result<Response>,
    now: int,
    session: SessionResult,
    subsecMillis: nat,
    woken: bool)

  datatype Exit = Stopped | IdentityFailed | FatalStatus

  datatype Pc =
    | AtTop
    | AwaitIdentity
    | AwaitResolve
    | RetrySleep
    | InSession
    | FailoverWait(alreadyCancelled: bool)
    | Exited(exit: Exit)

  datatype Event =
    | CancelRequested
    | RetrySleepStarted(duration: nat)
    | RetrySleepEnded
    | Adopted(assignment: Assignment, renewed: bool, at: int)
    | SessionStarted(target: string)
    | SessionEnded
    | FailoverSleepStarted(duration: nat, position: nat)
    | PassExhausted

  datatype State = State(
    pc: Pc,
    cancelled: bool,
    cache: Option<Assignment>,
    backoff: nat,
    selector: Selector,
    log: seq<Event>)

  function Start(c: Config): State {
    State(AtTop, false, None, c.baseBackoff, Selector([], 0, c.baseBackoff), [])
  }

  function Cancelled(s: State, t: Tick): State {
    if t.cancel && !s.cancelled then s.(cancelled := true, log := s.log + [CancelRequested]) else s
  }

  function Adopt(c: Config, s: State, a: Assignment, renewed: bool, at: int): State
    requires a.candidates != []
  {
    s.(pc := InSession, cache := Some(a), selector := Selector(a.candidates, 0, c.baseBackoff),
       log := s.log + [Adopted(a, renewed, at)] + [SessionStarted(a.candidates[0])])
  }

  function AfterResolve(c: Config, s: State, resolve: Result<Response>, now: int): State {
    if resolve.Ok? && Candidates(resolve.value) != [] then Adopt(c, s, Resolved(resolve.value, now), true, now)
    else if s.cache.Some? && now < s.cache.value.expiresAt && s.cache.value.candidates != [] then
      Adopt(c, s, s.cache.value, false, now)
    else s.(pc := RetrySleep, log := s.log + [RetrySleepStarted(s.backoff)])
  }

  function RetryIn(s: State, subsecMillis: nat): nat {
    Max(FailoverDelay(s.selector.backoff, subsecMillis), s.backoff)
  }

  function AfterFailure(c: Config, s: State, subsecMillis: nat): State {
    var next := Advanced(s.selector, c);
    if next.targets == [] then
      s.(pc := AtTop, selector := next, cache := None, backoff := Min(s.backoff * 2, c.maxBackoff),
         log := s.log + [PassExhausted])
    else
      s.(pc := FailoverWait(s.cancelled), selector := next,
         log := s.log + [FailoverSleepStarted(RetryIn(s, subsecMillis), s.selector.index)])
  }

  function AfterSession(c: Config, s: State, session: SessionResult, subsecMillis: nat): State {
    match session
    case Ended =>
      s.(pc := AtTop, backoff := c.baseBackoff, selector := s.selector.(backoff := c.baseBackoff),
         log := s.log + [SessionEnded])
    case Failed(status) =>
      if IsFatal(status) then s.(pc := Exited(FatalStatus)) else AfterFailure(c, s, subsecMillis)
  }

  /** The step from where the loop stands, once a cancellation has been noted. */
  function Proceed(c: Config, s: State, t: Tick): State {
    match s.pc
    case AtTop => s.(pc := if s.cancelled then Exited(Stopped) else AwaitIdentity)
    case AwaitIdentity => s.(pc := if t.identityOk then AwaitResolve else Exited(IdentityFailed))
    case AwaitResolve => AfterResolve(c, s, t.resolve, t.now)
    case RetrySleep =>
      s.(pc := AtTop, backoff := Min(s.backoff * 2, c.maxBackoff), log := s.log + [RetrySleepEnded])
    case InSession => AfterSession(c, s, t.session, t.subsecMillis)
    case FailoverWait(already) =>
      // A sleep that has not started to elapse is not ready, so a cancellation seen first wins.
      if s.cancelled && (already || !t.woken) then s.(pc := Exited(Stopped))
      else if s.selector.index < |s.selector.targets| then
        s.(pc := InSession, log := s.log + [SessionStarted(s.selector.targets[s.selector.index])])
      else s.(pc := AtTop)
    case Exited(_) => s
  }

  function Next(c: Config, s: State, t: Tick): State {
    if s.pc.Exited? then s else Proceed(c, Cancelled(s, t), t)
  }

  function Run(c: Config, s: State, ticks: seq<Tick>): State
    decreases |ticks|
  {
    if ticks == [] then s else Run(c, Next(c, s, ticks[0]), ticks[1..])
  }

  // ----- what a log says -----

  /**
   * Summary of a log: failed rounds since the last ended session; the assignment cached since the last exhausted
   * pass and the time of its last renewal; the assignment of the current pass with the targets tried and the
   * failover sleeps taken in it; and what has been started since the cancellation.
   */
  datatype Summary = Summary(
    failures: nat,
    cached: Option<Assignment>,
    renewedAt: int,
    current: Option<Assignment>,
    tried: seq<string>,
    sleeps: nat,
    slept: nat,
    cancelled: bool,
    startedSince: nat)

  function Absorb(u: Summary, e: Event): Summary {
    match e
    case CancelRequested => u.(cancelled := true, startedSince := 0)
    case RetrySleepStarted(_) => u.(startedSince := u.startedSince + 1)
    case RetrySleepEnded => u.(failures := u.failures + 1)
    case Adopted(a, renewed, at) =>
      u.(cached := Some(a), renewedAt := if renewed then at else u.renewedAt, current := Some(a),
         tried := [], sleeps := 0, slept := 0)
    case SessionStarted(target) => u.(tried := u.tried + [target], startedSince := u.startedSince + 1)
    case SessionEnded => u.(failures := 0)
    case FailoverSleepStarted(d, _) => u.(sleeps := u.sleeps + 1, slept := u.slept + d)
    case PassExhausted => u.(failures := u.failures + 1, cached := None)
  }

  function Summarise(log: seq<Event>): Summary {
    if log == [] then Summary(0, None, 0, None, [], 0, 0, false, 0)
    else Absorb(Summarise(log[..|log| - 1]), log[|log| - 1])
  }

  /** The assignment was resolved at the given time, and its expiry set from then. */
  ghost predicate ResolvedAt(a: Assignment, at: int) {
    exists r :: MadeFrom(a, r, at)
  }

  /** The event may follow a log with the given summary. */
  ghost predicate Admissible(c: Config, u: Summary, e: Event) {
    match e
    case CancelRequested => !u.cancelled
    case RetrySleepStarted(d) => d == Backoff(c, u.failures)
    case RetrySleepEnded => true
    case Adopted(a, renewed, at) =>
      && a.candidates != []
      && if renewed then ResolvedAt(a, at)
         else u.cached == Some(a) && at < a.expiresAt && ResolvedAt(a, u.renewedAt)
    case SessionStarted(target) =>
      u.current.Some? && |u.tried| < |u.current.value.candidates| && target == u.current.value.candidates[|u.tried|]
    case SessionEnded => true
    case FailoverSleepStarted(d, k) =>
      k == u.sleeps && Max(Backoff(c, k), Backoff(c, u.failures)) <= d && 5 * d <= 6 * c.maxBackoff
    case PassExhausted =>
      && u.current.Some? && u.tried == u.current.value.candidates
      && u.sleeps == |u.tried| - 1 && 5 * u.slept <= 6 * c.maxBackoff * u.sleeps
  }

  ghost predicate Sound(c: Config, log: seq<Event>) {
    log == []
    || (var n := |log| - 1;
        Sound(c, log[..n]) && Admissible(c, Summarise(log[..n]), log[n]))
  }

  lemma SoundAppend(c: Config, log: seq<Event>, e: Event)
    requires Sound(c, log) && Admissible(c, Summarise(log), e)
    ensures Sound(c, log + [e]) && Summarise(log + [e]) == Absorb(Summarise(log), e)
  {
    assert (log + [e])[..|log|] == log;
  }

  // ----- the invariant -----

  /** How many more sessions or retry sleeps a cancelled loop may begin. */
  function Allowance(pc: Pc): nat {
    match pc
    case AwaitIdentity => 1
    case AwaitResolve => 1
    case FailoverWait(already) => if already then 0 else 1
    case _ => 0
  }

  /** How the loop's variables agree with a summary of what it has done. */
  ghost predicate Linked(c: Config, s: State, u: Summary) {
    && s.backoff == Backoff(c, u.failures)
    && s.cache == u.cached
    && (s.cache.Some? ==> ResolvedAt(s.cache.value, u.renewedAt))
    && PassLinked(c, s, u)
    && s.cancelled == u.cancelled
    && (s.cancelled ==> u.startedSince + Allowance(s.pc) <= 1)
  }

  ghost predicate PassLinked(c: Config, s: State, u: Summary) {
    && (s.pc.InSession? || s.pc.FailoverWait? ==>
          && u.current.Some? && s.selector.targets == u.current.value.candidates
          && s.selector.index < |s.selector.targets|
          && s.selector.index == u.sleeps
          && s.selector.backoff == Backoff(c, s.selector.index)
          && u.tried == s.selector.targets[..if s.pc.InSession? then s.selector.index + 1 else s.selector.index])
    && 5 * u.slept <= 6 * c.maxBackoff * u.sleeps
  }

  ghost predicate Inv(c: Config, s: State) {
    Sound(c, s.log) && Linked(c, s, Summarise(s.log))
  }

  lemma CancelKeepsInv(c: Config, s: State, t: Tick)
    requires Inv(c, s)
    ensures Inv(c, Cancelled(s, t))
  {
    if t.cancel && !s.cancelled {
      SoundAppend(c, s.log, CancelRequested);
    }
  }

  lemma AdoptKeepsLinked(c: Config, s: State, u: Summary, a: Assignment, renewed: bool, at: int, log: seq<Event>)
    requires ValidConfig(c) && Linked(c, s, u) && s.pc.AwaitResolve? && a.candidates != []
    requires Admissible(c, u, Adopted(a, renewed, at))
    ensures var target := SessionStarted(a.candidates[0]);
            var adopted := Absorb(u, Adopted(a, renewed, at));
            && Admissible(c, adopted, target)
            && Linked(c, Adopt(c, s, a, renewed, at).(log := log), Absorb(adopted, target))
  {
    assert a.candidates[..1] == [a.candidates[0]];
  }

  lemma AdoptKeepsInv(c: Config, s: State, a: Assignment, renewed: bool, at: int)
    requires ValidConfig(c) && Inv(c, s) && s.pc.AwaitResolve? && a.candidates != []
    requires Admissible(c, Summarise(s.log), Adopted(a, renewed, at))
    ensures Inv(c, Adopt(c, s, a, renewed, at))
  {
    var t := Adopt(c, s, a, renewed, at);
    AdoptKeepsLinked(c, s, Summarise(s.log), a, renewed, at, t.log);
    SoundAppend(c, s.log, Adopted(a, renewed, at));
    SoundAppend(c, s.log + [Adopted(a, renewed, at)], SessionStarted(a.candidates[0]));
  }

  lemma ResolveKeepsInv(c: Config, s: State, resolve: Result<Response>, now: int)
    requires ValidConfig(c) && Inv(c, s) && s.pc.AwaitResolve?
    ensures Inv(c, AfterResolve(c, s, resolve, now))
  {
    if resolve.Ok? && Candidates(resolve.value) != [] {
      ResolvedIsMadeFrom(resolve.value, now);
      AdoptKeepsInv(c, s, Resolved(resolve.value, now), true, now);
    } else if s.cache.Some? && now < s.cache.value.expiresAt && s.cache.value.candidates != [] {
      AdoptKeepsInv(c, s, s.cache.value, false, now);
    } else {
      SoundAppend(c, s.log, RetrySleepStarted(s.backoff));
    }
  }

  lemma OneMoreSleep(limit: nat, sleeps: nat, slept: nat, d: nat)
    requires 5 * slept <= limit * sleeps && 5 * d <= limit
    ensures 5 * (slept + d) <= limit * (sleeps + 1)
  {
  }

  lemma SleepAdmissible(c: Config, s: State, u: Summary, subsecMillis: nat)
    requires ValidConfig(c) && Linked(c, s, u) && s.pc.InSession?
    ensures Admissible(c, u, FailoverSleepStarted(RetryIn(s, subsecMillis), s.selector.index))
  {
    BackoffClosedForm(c, u.sleeps);
    BackoffClosedForm(c, u.failures);
    FailoverDelayBounds(s.selector.backoff, subsecMillis);
  }

  lemma SleepKeepsLinked(c: Config, s: State, u: Summary, d: nat, position: nat, log: seq<Event>)
    requires Linked(c, s, u) && s.pc.InSession? && s.selector.index + 1 < |s.selector.targets|
    requires 5 * d <= 6 * c.maxBackoff
    ensures Linked(c, State(FailoverWait(s.cancelled), s.cancelled, s.cache, s.backoff, Advanced(s.selector, c), log),
                   Absorb(u, FailoverSleepStarted(d, position)))
  {
    OneMoreSleep(6 * c.maxBackoff, u.sleeps, u.slept, d);
  }

  lemma ExhaustionKeepsLinked(c: Config, s: State, u: Summary, selector: Selector, log: seq<Event>)
    requires Linked(c, s, u) && s.pc.InSession? && s.selector.index + 1 >= |s.selector.targets|
    ensures Admissible(c, u, PassExhausted)
    ensures Linked(c, State(AtTop, s.cancelled, None, Min(s.backoff * 2, c.maxBackoff), selector, log),
                   Absorb(u, PassExhausted))
  {
    assert s.selector.targets[..s.selector.index + 1] == s.selector.targets;
  }

  lemma FailureKeepsInv(c: Config, s: State, subsecMillis: nat)
    requires ValidConfig(c) && Inv(c, s) && s.pc.InSession?
    ensures Inv(c, AfterFailure(c, s, subsecMillis))
  {
    var u, t := Summarise(s.log), AfterFailure(c, s, subsecMillis);
    if s.selector.index + 1 >= |s.selector.targets| {
      ExhaustionKeepsLinked(c, s, u, t.selector, t.log);
      SoundAppend(c, s.log, PassExhausted);
    } else {
      var d := RetryIn(s, subsecMillis);
      SleepAdmissible(c, s, u, subsecMillis);
      SleepKeepsLinked(c, s, u, d, s.selector.index, t.log);
      SoundAppend(c, s.log, FailoverSleepStarted(d, s.selector.index));
    }
  }

  lemma SessionStartKeepsInv(c: Config, s: State)
    requires Inv(c, s) && s.pc.FailoverWait? && !(s.cancelled && s.pc.alreadyCancelled)
    ensures Inv(c, s.(pc := InSession, log := s.log + [SessionStarted(s.selector.targets[s.selector.index])]))
  {
    var target := s.selector.targets[s.selector.index];
    SoundAppend(c, s.log, SessionStarted(target));
    assert s.selector.targets[..s.selector.index] + [target] == s.selector.targets[..s.selector.index + 1];
  }

  lemma SessionKeepsInv(c: Config, s: State, session: SessionResult, subsecMillis: nat)
    requires ValidConfig(c) && Inv(c, s) && s.pc.InSession?
    ensures Inv(c, AfterSession(c, s, session, subsecMillis))
  {
    match session
    case Ended => SoundAppend(c, s.log, SessionEnded);
    case Failed(_) => FailureKeepsInv(c, s, subsecMillis);
  }

  lemma ProceedKeepsInv(c: Config, s: State, t: Tick)
    requires ValidConfig(c) && Inv(c, s)
    ensures Inv(c, Proceed(c, s, t))
  {
    match s.pc
    case AwaitResolve => ResolveKeepsInv(c, s, t.resolve, t.now);
    case RetrySleep => SoundAppend(c, s.log, RetrySleepEnded);
    case InSession => SessionKeepsInv(c, s, t.session, t.subsecMillis);
    case FailoverWait(already) =>
      if !(s.cancelled && (already || !t.woken)) {
        SessionStartKeepsInv(c, s);
      }
    case _ =>
  }

  lemma NextKeepsInv(c: Config, s: State, t: Tick)
    requires ValidConfig(c) && Inv(c, s)
    ensures Inv(c, Next(c, s, t))
  {
    CancelKeepsInv(c, s, t);
    ProceedKeepsInv(c, Cancelled(s, t), t);
  }

  lemma {:induction false} RunKeepsInv(c: Config, s: State, ticks: seq<Tick>)
    requires ValidConfig(c) && Inv(c, s)
    ensures Inv(c, Run(c, s, ticks))
    decreases |ticks|
  {
    if ticks == [] {
    } else {
      NextKeepsInv(c, s, ticks[0]);
      RunKeepsInv(c, Next(c, s, ticks[0]), ticks[1..]);
    }
  }
}
