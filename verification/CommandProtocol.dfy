/**
 * The command arm of `handle_server_message` as a step system. The table is durable; handlers in progress are
 * lost in a crash. Handlers may interleave freely, requests may be redelivered, and every ledger call and every
 * send may fail. The log records, in order, what happened since the database was created.
 */
module CommandProtocol {
  import opened Ledger
  import opened Results
  import opened Text

  datatype Request = Request(commandId: string, commandType: string, payloadJson: string)

  /** Where a handler stands between two awaits or ledger calls. */
  datatype Phase =
    | Accepted
    | Executing
    | Executed(outcome: Result<string>)
    | Replying(reply: Reply, replay: bool)

  datatype Handler = Handler(request: Request, key: Key, phase: Phase)

  /** `Decided` is stamped inside the ledger lock, `Sent` when the channel has taken the frame. */
  datatype Event =
    | Claimed(handler: nat, key: Key)
    | Invoked(handler: nat, key: Key)
    | Returned(handler: nat, key: Key, outcome: Result<string>)
    | Decided(handler: nat, key: Key, reply: Reply, replay: bool)
    | Sent(handler: nat, key: Key, reply: Reply, replay: bool)

  datatype System = System(rows: Table, up: bool, handlers: map<nat, Handler>, nextId: nat, log: seq<Event>)

  datatype Action =
    | Deliver(request: Request, now: int, fault: BeginFault)
    | Invoke(handler: nat)
    | Return(handler: nat, outcome: Result<string>)
    | Finish(handler: nat, now: int, stored: bool)
    | Send(handler: nat, taken: bool)
    | Crash
    | Reopen(now: int, swept: bool)

  const MISMATCH := Reply(Failed, EMPTY_JSON, "command_id_payload_mismatch")

  function RecordedReply(row: Row): Reply {
    row.reply.(status := if row.reply.status.Succeeded? then Succeeded else Failed)
  }

  function ReplyTo(answer: BeginOrGet): Reply
    requires !answer.New?
  {
    match answer
    case Existing(row) => if row.reply.status.Running? then STILL_RUNNING else RecordedReply(row)
    case PayloadMismatch(_) => MISMATCH
  }

  function FreshReply(outcome: Result<string>): Reply {
    match outcome
    case Ok(value) => Reply(Succeeded, value, "")
    case Err(m) => Reply(Failed, EMPTY_JSON, m)
  }

  /** What a reply leaves in the ledger: a fresh one is normalised on the way in, a replay came out of it. */
  function Kept(reply: Reply, replay: bool): Reply {
    if replay then reply else Stored(reply)
  }

  /** What an outcome is answered with, and what of it is kept. */
  lemma OutcomeMeans(outcome: Result<string>)
    ensures FreshReply(outcome) == match outcome
                                   case Ok(v) => Reply(Succeeded, v, "")
                                   case Err(m) => Reply(Failed, "{}", m)
    ensures Kept(FreshReply(outcome), false) == match outcome
                                                case Ok(v) => Reply(Succeeded, if Trim(v) == "" then "{}" else v, "")
                                                case Err(m) => Reply(Failed, "{}", Trim(m))
  {
    assert Trim("") == "";
    assert Tidy("{}");
  }

  function RequestKey(lib: Library, r: Request): Key {
    KeyOf(lib, r.commandId, r.commandType, r.payloadJson)
  }

  function Moved(s: System, h: nat, phase: Phase, e: Event): System
    requires h in s.handlers
  {
    s.(handlers := s.handlers[h := s.handlers[h].(phase := phase)], log := s.log + [e])
  }

  function AfterDeliver(s: System, r: Request, key: Key, resourceKey: Option<string>, now: int, fault: BeginFault)
    : System
  {
    var (rows, answer) := Begin(s.rows, key, resourceKey, now, fault);
    if answer.Err? then s.(rows := rows)
    else if answer.value.New? then
      s.(rows := rows, nextId := s.nextId + 1, handlers := s.handlers[s.nextId := Handler(r, key, Accepted)],
         log := s.log + [Claimed(s.nextId, key)])
    else
      var reply := ReplyTo(answer.value);
      s.(rows := rows, nextId := s.nextId + 1,
         handlers := s.handlers[s.nextId := Handler(r, key, Replying(reply, true))],
         log := s.log + [Decided(s.nextId, key, reply, true)])
  }

  function AfterFinish(s: System, h: nat, now: int): System
    requires h in s.handlers && s.handlers[h].phase.Executed?
  {
    var reply := FreshReply(s.handlers[h].phase.outcome);
    var key := s.handlers[h].key;
    Moved(s, h, Replying(reply, false), Decided(h, key, reply, false))
      .(rows := Complete(s.rows, key.id, Kept(reply, false), now))
  }

  function AfterInvoke(s: System, h: nat): System
    requires h in s.handlers && s.handlers[h].phase.Accepted?
  {
    Moved(s, h, Executing, Invoked(h, s.handlers[h].key))
  }

  function AfterReturn(s: System, h: nat, outcome: Result<string>): System
    requires h in s.handlers && s.handlers[h].phase.Executing?
  {
    Moved(s, h, Executed(outcome), Returned(h, s.handlers[h].key, outcome))
  }

  function AfterSend(s: System, h: nat, taken: bool): System
    requires h in s.handlers && s.handlers[h].phase.Replying?
  {
    var phase := s.handlers[h].phase;
    s.(handlers := s.handlers - {h},
       log := if taken then s.log + [Sent(h, s.handlers[h].key, phase.reply, phase.replay)] else s.log)
  }

  function Next(lib: Library, s: System, a: Action): System {
    match a
    case Deliver(r, now, fault) =>
      if s.up then AfterDeliver(s, r, RequestKey(lib, r), ExtractResourceKey(lib, r.payloadJson), now, fault) else s
    case Invoke(h) => if h in s.handlers && s.handlers[h].phase.Accepted? then AfterInvoke(s, h) else s
    case Return(h, outcome) =>
      if h in s.handlers && s.handlers[h].phase.Executing? then AfterReturn(s, h, outcome) else s
    case Finish(h, now, stored) =>
      if h in s.handlers && s.handlers[h].phase.Executed? then
        if stored then AfterFinish(s, h, now) else s.(handlers := s.handlers - {h})
      else s
    case Send(h, taken) => if h in s.handlers && s.handlers[h].phase.Replying? then AfterSend(s, h, taken) else s
    case Crash => s.(up := false, handlers := map[])
    case Reopen(now, swept) =>
      if s.up || !swept then s else s.(rows := MarkStale(s.rows, now), up := true)
  }

  function Run(lib: Library, s: System, actions: seq<Action>): System
    decreases |actions|
  {
    if actions == [] then s else Run(lib, Next(lib, s, actions[0]), actions[1..])
  }

  /** Before the first start: an empty table and no process. */
  const START := System(map[], false, map[], 0, [])

  // ----- the invariant -----

  ghost predicate Matches(rows: Table, key: Key) {
    key.id in rows && rows[key.id].key == key
  }

  ghost predicate HandlersKnown(s: System) {
    && (!s.up ==> s.handlers == map[])
    && (forall h :: h in s.handlers ==> h < s.nextId)
    && (forall e :: e in s.log ==> e.handler < s.nextId)
  }

  /** A command id is claimed by one handler only, and the row under it is of that command. */
  ghost predicate ClaimsUnique(s: System) {
    && (forall h, k :: Claimed(h, k) in s.log ==> Matches(s.rows, k))
    && (forall h, h', k :: Claimed(h, k) in s.log && Claimed(h', k) in s.log ==> h == h')
  }

  /** A working handler has claimed its command, whose row is running. */
  ghost predicate WorkersClaimed(s: System) {
    forall h :: h in s.handlers && !s.handlers[h].phase.Replying? ==>
      && Claimed(h, s.handlers[h].key) in s.log
      && Matches(s.rows, s.handlers[h].key)
      && s.rows[s.handlers[h].key.id].reply.status.Running?
  }

  /** A handler invokes the executor after its claim, and once. */
  ghost predicate InvokedOnce(s: System) {
    && (forall h, k :: Invoked(h, k) in s.log ==> Claimed(h, k) in s.log)
    && (forall h, k :: h in s.handlers && s.handlers[h].phase.Accepted? ==> Invoked(h, k) !in s.log)
    && (forall i, j :: 0 <= i < j < |s.log| && s.log[i].Invoked? && s.log[j].Invoked? ==>
          s.log[i].handler != s.log[j].handler)
  }

  /** What a handler holds as an outcome, the executor it invoked has returned. */
  ghost predicate ReturnsInvoked(s: System) {
    && (forall h :: h in s.handlers && s.handlers[h].phase.Executing? ==> Invoked(h, s.handlers[h].key) in s.log)
    && (forall h :: h in s.handlers && s.handlers[h].phase.Executed? ==>
          Returned(h, s.handlers[h].key, s.handlers[h].phase.outcome) in s.log)
    && (forall h, k, o :: Returned(h, k, o) in s.log ==> Invoked(h, k) in s.log)
  }

  /** A row's outcome is what the executor returned, as stored, or the mark of a restart. */
  ghost predicate Caused(log: seq<Event>, row: Row) {
    || row.reply == STILL_RUNNING
    || row.reply == Reply(Failed, EMPTY_JSON, RESTART_ERROR)
    || exists h, o :: Returned(h, row.key, o) in log && row.reply == Stored(FreshReply(o))
  }

  ghost predicate OutcomesCaused(s: System) {
    forall id :: id in s.rows ==> Caused(s.log, s.rows[id])
  }

  /** A decided reply agrees with the row under its id. */
  ghost predicate Agrees(rows: Table, key: Key, reply: Reply, replay: bool) {
    && key.id in rows
    && if !Matches(rows, key) then reply == MISMATCH && replay
       else if reply.status.Running? then reply == STILL_RUNNING && replay
       else !rows[key.id].reply.status.Running? && Kept(reply, replay) == rows[key.id].reply
  }

  ghost predicate AllAgree(rows: Table, log: seq<Event>) {
    forall h, k, reply, replay :: Decided(h, k, reply, replay) in log ==> Agrees(rows, k, reply, replay)
  }

  ghost predicate RepliesDecided(s: System) {
    && (forall h, k, reply :: Decided(h, k, reply, false) in s.log ==> FromExecutor(s.log, h, k, reply))
    && (forall h, k, reply, replay :: Sent(h, k, reply, replay) in s.log ==> Decided(h, k, reply, replay) in s.log)
    && (forall h :: h in s.handlers && s.handlers[h].phase.Replying? ==>
          Decided(h, s.handlers[h].key, s.handlers[h].phase.reply, s.handlers[h].phase.replay) in s.log)
  }

  ghost predicate FromExecutor(log: seq<Event>, h: nat, key: Key, reply: Reply) {
    exists o :: Returned(h, key, o) in log && reply == FreshReply(o)
  }

  /** The event answers a request for this very command with an outcome. */
  ghost predicate Final(rows: Table, e: Event, key: Key) {
    e.Decided? && e.key == key && Matches(rows, key) && !e.reply.status.Running?
  }

  /** Once a command has been answered with an outcome, every later answer to it is a replay of an outcome. */
  ghost predicate DecisionsOrdered(s: System) {
    forall i, j :: 0 <= i < j < |s.log| && s.log[j].Decided? && Final(s.rows, s.log[i], s.log[j].key) ==>
      s.log[j].replay && !s.log[j].reply.status.Running?
  }

  ghost predicate Inv(s: System) {
    && ValidTable(s.rows)
    && HandlersKnown(s)
    && ClaimsUnique(s)
    && WorkersClaimed(s)
    && InvokedOnce(s)
    && ReturnsInvoked(s)
    && OutcomesCaused(s)
    && AllAgree(s.rows, s.log)
    && RepliesDecided(s)
    && DecisionsOrdered(s)
  }

  /** A step that keeps the invariant and lets the table only grow in the order of a write-once map. */
  ghost predicate Advances(s: System, t: System) {
    Inv(t) && WriteOnce(s.rows, t.rows)
  }

  // ----- every action keeps it -----

  lemma DeliverKeepsRows(s: System, r: Request, key: Key, resourceKey: Option<string>, now: int,
                    fault: BeginFault)
    requires ValidTable(s.rows)
    ensures var t := AfterDeliver(s, r, key, resourceKey, now, fault); ValidTable(t.rows) && WriteOnce(s.rows, t.rows)
  {
    BeginKeepsTable(s.rows, key, resourceKey, now, fault);
  }

  lemma DeliverKeepsHandlers(s: System, r: Request, key: Key, resourceKey: Option<string>, now: int,
                    fault: BeginFault)
    requires s.up && HandlersKnown(s)
    ensures var t := AfterDeliver(s, r, key, resourceKey, now, fault); HandlersKnown(t)
  {
  }

  lemma DeliverKeepsClaims(s: System, r: Request, key: Key, resourceKey: Option<string>, now: int,
                    fault: BeginFault)
    requires s.up && ValidTable(s.rows) && HandlersKnown(s) && ClaimsUnique(s)
    ensures var t := AfterDeliver(s, r, key, resourceKey, now, fault); ClaimsUnique(t)
  {
    BeginKeepsTable(s.rows, key, resourceKey, now, fault);
  }

  lemma DeliverKeepsWorkers(s: System, r: Request, key: Key, resourceKey: Option<string>, now: int,
                    fault: BeginFault)
    requires s.up && ValidTable(s.rows) && WorkersClaimed(s)
    ensures var t := AfterDeliver(s, r, key, resourceKey, now, fault); WorkersClaimed(t)
  {
    BeginKeepsTable(s.rows, key, resourceKey, now, fault);
  }

  lemma DeliverKeepsInvokedOnce(s: System, r: Request, key: Key, resourceKey: Option<string>, now: int,
                    fault: BeginFault)
    requires s.up && HandlersKnown(s) && InvokedOnce(s)
    ensures var t := AfterDeliver(s, r, key, resourceKey, now, fault); InvokedOnce(t)
  {
  }

  lemma DeliverKeepsReturns(s: System, r: Request, key: Key, resourceKey: Option<string>, now: int,
                    fault: BeginFault)
    requires s.up && ReturnsInvoked(s)
    ensures var t := AfterDeliver(s, r, key, resourceKey, now, fault); ReturnsInvoked(t)
  {
  }

  lemma DeliverKeepsOutcomes(s: System, r: Request, key: Key, resourceKey: Option<string>, now: int,
                    fault: BeginFault)
    requires s.up && ValidTable(s.rows) && OutcomesCaused(s)
    ensures var t := AfterDeliver(s, r, key, resourceKey, now, fault); OutcomesCaused(t)
  {
    BeginKeepsTable(s.rows, key, resourceKey, now, fault);
  }

  lemma DeliverKeepsReplies(s: System, r: Request, key: Key, resourceKey: Option<string>, now: int,
                    fault: BeginFault)
    requires s.up && HandlersKnown(s) && RepliesDecided(s)
    ensures var t := AfterDeliver(s, r, key, resourceKey, now, fault); RepliesDecided(t)
  {
  }

  lemma DeliverKeepsAgreement(s: System, r: Request, key: Key, resourceKey: Option<string>, now: int,
                    fault: BeginFault)
    requires s.up && ValidTable(s.rows) && AllAgree(s.rows, s.log)
    ensures var t := AfterDeliver(s, r, key, resourceKey, now, fault); AllAgree(t.rows, t.log)
  {
    BeginKeepsTable(s.rows, key, resourceKey, now, fault);
  }

  /** Whether a decided reply is an outcome for its command does not change when the table grows. */
  lemma FinalIsStable(before: Table, after: Table, log: seq<Event>, e: Event, key: Key)
    requires AllAgree(before, log) && WriteOnce(before, after) && e in log
    ensures Final(after, e, key) ==> Final(before, e, key)
  {
    if Final(after, e, key) {
      assert e == Decided(e.handler, e.key, e.reply, e.replay);
      assert Agrees(before, e.key, e.reply, e.replay);
      assert SameIdentity(before[key.id], after[key.id]);
    }
  }

  lemma ClaimKeepsOrder(s: System, t: System, e: Event)
    requires AllAgree(s.rows, s.log) && DecisionsOrdered(s) && WriteOnce(s.rows, t.rows)
    requires !e.Decided? && t.log == s.log + [e]
    ensures DecisionsOrdered(t)
  {
    forall i, j | 0 <= i < j < |t.log| && t.log[j].Decided? && Final(t.rows, t.log[i], t.log[j].key)
      ensures t.log[j].replay && !t.log[j].reply.status.Running?
    {
      FinalIsStable(s.rows, t.rows, s.log, s.log[i], s.log[j].key);
    }
  }

  lemma ReplayKeepsOrder(s: System, t: System, e: Event)
    requires AllAgree(s.rows, s.log) && DecisionsOrdered(s) && t.rows == s.rows && t.log == s.log + [e]
    requires e.Decided? && e.replay
    requires Matches(s.rows, e.key) && !s.rows[e.key.id].reply.status.Running? ==> !e.reply.status.Running?
    ensures DecisionsOrdered(t)
  {
    forall i, j | 0 <= i < j < |t.log| && t.log[j].Decided? && Final(t.rows, t.log[i], t.log[j].key)
      ensures t.log[j].replay && !t.log[j].reply.status.Running?
    {
      assert t.log[i] == s.log[i] == Decided(s.log[i].handler, s.log[i].key, s.log[i].reply, s.log[i].replay);
      assert Agrees(s.rows, s.log[i].key, s.log[i].reply, s.log[i].replay);
      if j < |s.log| {
        assert t.log[j] == s.log[j];
      }
    }
  }

  lemma DeliverKeepsOrder(s: System, r: Request, key: Key, resourceKey: Option<string>, now: int, fault: BeginFault)
    requires s.up && ValidTable(s.rows) && AllAgree(s.rows, s.log) && DecisionsOrdered(s)
    ensures var t := AfterDeliver(s, r, key, resourceKey, now, fault); DecisionsOrdered(t)
  {
    BeginKeepsTable(s.rows, key, resourceKey, now, fault);
    var t := AfterDeliver(s, r, key, resourceKey, now, fault);
    var answer := Begin(s.rows, key, resourceKey, now, fault).1;
    if answer.Err? {
      TableMayGrow(s, t);
    } else if answer.value.New? {
      ClaimKeepsOrder(s, t, Claimed(s.nextId, key));
    } else {
      ReplayKeepsOrder(s, t, Decided(s.nextId, key, ReplyTo(answer.value), true));
    }
  }

  lemma TableMayGrow(s: System, t: System)
    requires AllAgree(s.rows, s.log) && DecisionsOrdered(s) && WriteOnce(s.rows, t.rows) && t.log == s.log
    ensures DecisionsOrdered(t)
  {
    forall i, j | 0 <= i < j < |t.log| && t.log[j].Decided? && Final(t.rows, t.log[i], t.log[j].key)
      ensures t.log[j].replay && !t.log[j].reply.status.Running?
    {
      FinalIsStable(s.rows, t.rows, s.log, s.log[i], s.log[j].key);
    }
  }

  /** The state after a successful `complete`, with what the row now holds and what the handler will send. */
  function Settled(s: System, h: nat, kept: Reply, reply: Reply, now: int): System
    requires h in s.handlers
  {
    Moved(s, h, Replying(reply, false), Decided(h, s.handlers[h].key, reply, false))
      .(rows := Complete(s.rows, s.handlers[h].key.id, kept, now))
  }

  lemma SettlingKeepsInvokedOnce(s: System, h: nat, kept: Reply, reply: Reply, now: int)
    requires h in s.handlers && InvokedOnce(s)
    ensures InvokedOnce(Settled(s, h, kept, reply, now))
  {
  }

  lemma SettlingKeepsReturns(s: System, h: nat, kept: Reply, reply: Reply, now: int)
    requires h in s.handlers && ReturnsInvoked(s)
    ensures ReturnsInvoked(Settled(s, h, kept, reply, now))
  {
  }

  lemma SettlingKeepsReplies(s: System, h: nat, kept: Reply, reply: Reply, now: int)
    requires h in s.handlers && RepliesDecided(s)
    requires FromExecutor(s.log, h, s.handlers[h].key, reply)
    ensures RepliesDecided(Settled(s, h, kept, reply, now))
  {
  }

  lemma SettlingKeepsHandlers(s: System, h: nat, kept: Reply, reply: Reply, now: int)
    requires h in s.handlers && HandlersKnown(s)
    ensures HandlersKnown(Settled(s, h, kept, reply, now))
  {
  }

  lemma SettlingKeepsClaims(s: System, h: nat, kept: Reply, reply: Reply, now: int)
    requires h in s.handlers && s.handlers[h].phase.Executed?
    requires ClaimsUnique(s) && WorkersClaimed(s)
    ensures ClaimsUnique(Settled(s, h, kept, reply, now)) && WorkersClaimed(Settled(s, h, kept, reply, now))
  {
  }

  lemma SettlingKeepsAgreement(s: System, h: nat, kept: Reply, reply: Reply, now: int)
    requires h in s.handlers && s.handlers[h].phase.Executed?
    requires WorkersClaimed(s) && AllAgree(s.rows, s.log)
    requires kept == Kept(reply, false) && !reply.status.Running?
    ensures AllAgree(Settled(s, h, kept, reply, now).rows, Settled(s, h, kept, reply, now).log)
  {
  }

  lemma SettlingKeepsOrder(s: System, h: nat, kept: Reply, reply: Reply, now: int)
    requires h in s.handlers && s.handlers[h].phase.Executed?
    requires WorkersClaimed(s) && AllAgree(s.rows, s.log) && DecisionsOrdered(s)
    requires !reply.status.Running?
    ensures DecisionsOrdered(Settled(s, h, kept, reply, now))
  {
  }

  lemma FinishKeepsInv(s: System, h: nat, now: int)
    requires Inv(s)
    ensures h in s.handlers && s.handlers[h].phase.Executed? ==> Advances(s, AfterFinish(s, h, now))
  {
    if h in s.handlers && s.handlers[h].phase.Executed? {
      var key, outcome := s.handlers[h].key, s.handlers[h].phase.outcome;
      var reply := FreshReply(outcome);
      var kept := Kept(reply, false);
      assert AfterFinish(s, h, now) == Settled(s, h, kept, reply, now);
      CompleteKeepsTable(s.rows, key.id, kept, now);
      SettlingKeepsInvokedOnce(s, h, kept, reply, now);
      SettlingKeepsReturns(s, h, kept, reply, now);
      SettlingKeepsReplies(s, h, kept, reply, now);
      SettlingKeepsHandlers(s, h, kept, reply, now);
      SettlingKeepsClaims(s, h, kept, reply, now);
      SettlingKeepsAgreement(s, h, kept, reply, now);
      SettlingKeepsOrder(s, h, kept, reply, now);
      SettlingKeepsOutcomes(s, h, kept, reply, now);
    }
  }

  lemma SettlingKeepsOutcomes(s: System, h: nat, kept: Reply, reply: Reply, now: int)
    requires h in s.handlers && s.handlers[h].phase.Executed?
    requires WorkersClaimed(s) && ReturnsInvoked(s) && OutcomesCaused(s)
    requires kept == Stored(FreshReply(s.handlers[h].phase.outcome))
    ensures OutcomesCaused(Settled(s, h, kept, reply, now))
  {
    var t := Settled(s, h, kept, reply, now);
    forall id | id in t.rows ensures Caused(t.log, t.rows[id]) {
      assert Caused(s.log, s.rows[id]);
    }
  }

  /** Events other than `Decided` leave every decision as it was. */
  lemma LoggingKeepsDecisions(s: System, t: System, e: Event)
    requires OutcomesCaused(s) && AllAgree(s.rows, s.log) && DecisionsOrdered(s)
    requires !e.Decided? && t.rows == s.rows && t.log == s.log + [e]
    ensures OutcomesCaused(t) && AllAgree(t.rows, t.log) && DecisionsOrdered(t)
  {
    forall id | id in t.rows ensures Caused(t.log, t.rows[id]) {
      assert Caused(s.log, s.rows[id]);
    }
  }

  lemma InvokeKeepsExecution(s: System, h: nat)
    requires h in s.handlers && s.handlers[h].phase.Accepted?
    requires HandlersKnown(s) && ClaimsUnique(s) && WorkersClaimed(s)
    ensures var t := AfterInvoke(s, h); HandlersKnown(t) && ClaimsUnique(t) && WorkersClaimed(t)
  {
  }

  lemma InvokeKeepsInvokedOnce(s: System, h: nat)
    requires h in s.handlers && s.handlers[h].phase.Accepted?
    requires WorkersClaimed(s) && InvokedOnce(s)
    ensures InvokedOnce(AfterInvoke(s, h))
  {
  }

  lemma InvokeKeepsReturns(s: System, h: nat)
    requires h in s.handlers && s.handlers[h].phase.Accepted?
    requires ReturnsInvoked(s)
    ensures ReturnsInvoked(AfterInvoke(s, h))
  {
  }

  lemma InvokeKeepsReplies(s: System, h: nat)
    requires h in s.handlers && s.handlers[h].phase.Accepted?
    requires RepliesDecided(s)
    ensures var t := AfterInvoke(s, h); RepliesDecided(t)
  {
  }

  lemma ReturnKeepsExecution(s: System, h: nat, outcome: Result<string>)
    requires h in s.handlers && s.handlers[h].phase.Executing?
    requires HandlersKnown(s) && ClaimsUnique(s) && WorkersClaimed(s)
    ensures var t := AfterReturn(s, h, outcome); HandlersKnown(t) && ClaimsUnique(t) && WorkersClaimed(t)
  {
  }

  lemma ReturnKeepsInvokedOnce(s: System, h: nat, outcome: Result<string>)
    requires h in s.handlers && s.handlers[h].phase.Executing?
    requires WorkersClaimed(s) && InvokedOnce(s)
    ensures InvokedOnce(AfterReturn(s, h, outcome))
  {
  }

  lemma ReturnKeepsReturns(s: System, h: nat, outcome: Result<string>)
    requires h in s.handlers && s.handlers[h].phase.Executing?
    requires ReturnsInvoked(s)
    ensures ReturnsInvoked(AfterReturn(s, h, outcome))
  {
  }

  lemma ReturnKeepsReplies(s: System, h: nat, outcome: Result<string>)
    requires h in s.handlers && s.handlers[h].phase.Executing?
    requires RepliesDecided(s)
    ensures var t := AfterReturn(s, h, outcome); RepliesDecided(t)
  {
  }

  lemma SendKeepsExecution(s: System, h: nat, taken: bool)
    requires h in s.handlers && s.handlers[h].phase.Replying?
    requires HandlersKnown(s) && ClaimsUnique(s) && WorkersClaimed(s)
    ensures var t := AfterSend(s, h, taken); HandlersKnown(t) && ClaimsUnique(t) && WorkersClaimed(t)
  {
  }

  lemma SendKeepsInvokedOnce(s: System, h: nat, taken: bool)
    requires h in s.handlers && s.handlers[h].phase.Replying?
    requires WorkersClaimed(s) && InvokedOnce(s)
    ensures InvokedOnce(AfterSend(s, h, taken))
  {
  }

  lemma SendKeepsReturns(s: System, h: nat, taken: bool)
    requires h in s.handlers && s.handlers[h].phase.Replying?
    requires ReturnsInvoked(s)
    ensures ReturnsInvoked(AfterSend(s, h, taken))
  {
  }

  lemma SendKeepsReplies(s: System, h: nat, taken: bool)
    requires h in s.handlers && s.handlers[h].phase.Replying?
    requires RepliesDecided(s)
    ensures var t := AfterSend(s, h, taken); RepliesDecided(t)
  {
  }

  lemma ReopenKeepsInv(s: System, now: int)
    requires Inv(s) && !s.up
    ensures Inv(s.(rows := MarkStale(s.rows, now), up := true))
  {
    MarkStaleKeepsTable(s.rows, now);
  }

  lemma DroppingKeepsInv(s: System, up: bool, dropped: set<nat>)
    requires Inv(s) && (up ==> s.up) && (!up ==> s.handlers.Keys <= dropped)
    ensures Inv(s.(up := up, handlers := s.handlers - dropped))
  {
  }

  lemma DeliverKeepsInv(s: System, r: Request, key: Key, resourceKey: Option<string>, now: int, fault: BeginFault)
    requires s.up && Inv(s)
    ensures var t := AfterDeliver(s, r, key, resourceKey, now, fault); Inv(t) && WriteOnce(s.rows, t.rows)
  {
    DeliverKeepsRows(s, r, key, resourceKey, now, fault);
    DeliverKeepsHandlers(s, r, key, resourceKey, now, fault);
    DeliverKeepsClaims(s, r, key, resourceKey, now, fault);
    DeliverKeepsWorkers(s, r, key, resourceKey, now, fault);
    DeliverKeepsInvokedOnce(s, r, key, resourceKey, now, fault);
    DeliverKeepsReturns(s, r, key, resourceKey, now, fault);
    DeliverKeepsOutcomes(s, r, key, resourceKey, now, fault);
    DeliverKeepsReplies(s, r, key, resourceKey, now, fault);
    DeliverKeepsAgreement(s, r, key, resourceKey, now, fault);
    DeliverKeepsOrder(s, r, key, resourceKey, now, fault);
  }

  lemma InvokeKeepsDecisions(s: System, h: nat)
    requires h in s.handlers && s.handlers[h].phase.Accepted?
    requires OutcomesCaused(s) && AllAgree(s.rows, s.log) && DecisionsOrdered(s)
    ensures var t := AfterInvoke(s, h); OutcomesCaused(t) && AllAgree(t.rows, t.log) && DecisionsOrdered(t)
  {
    LoggingKeepsDecisions(s, AfterInvoke(s, h), Invoked(h, s.handlers[h].key));
  }

  lemma InvokeAdvances(s: System, h: nat)
    requires Inv(s)
    ensures h in s.handlers && s.handlers[h].phase.Accepted? ==> Advances(s, AfterInvoke(s, h))
  {
    if h in s.handlers && s.handlers[h].phase.Accepted? {
      InvokeKeepsExecution(s, h);
      InvokeKeepsInvokedOnce(s, h);
      InvokeKeepsReturns(s, h);
      InvokeKeepsReplies(s, h);
      InvokeKeepsDecisions(s, h);
    }
  }

  lemma ReturnKeepsDecisions(s: System, h: nat, outcome: Result<string>)
    requires h in s.handlers && s.handlers[h].phase.Executing?
    requires OutcomesCaused(s) && AllAgree(s.rows, s.log) && DecisionsOrdered(s)
    ensures var t := AfterReturn(s, h, outcome); OutcomesCaused(t) && AllAgree(t.rows, t.log) && DecisionsOrdered(t)
  {
    LoggingKeepsDecisions(s, AfterReturn(s, h, outcome), Returned(h, s.handlers[h].key, outcome));
  }

  lemma ReturnAdvances(s: System, h: nat, outcome: Result<string>)
    requires Inv(s)
    ensures h in s.handlers && s.handlers[h].phase.Executing? ==> Advances(s, AfterReturn(s, h, outcome))
  {
    if h in s.handlers && s.handlers[h].phase.Executing? {
      ReturnKeepsExecution(s, h, outcome);
      ReturnKeepsInvokedOnce(s, h, outcome);
      ReturnKeepsReturns(s, h, outcome);
      ReturnKeepsReplies(s, h, outcome);
      ReturnKeepsDecisions(s, h, outcome);
    }
  }

  lemma SendKeepsDecisions(s: System, h: nat, taken: bool)
    requires h in s.handlers && s.handlers[h].phase.Replying?
    requires OutcomesCaused(s) && AllAgree(s.rows, s.log) && DecisionsOrdered(s)
    ensures var t := AfterSend(s, h, taken); OutcomesCaused(t) && AllAgree(t.rows, t.log) && DecisionsOrdered(t)
  {
    if taken {
      var phase := s.handlers[h].phase;
      LoggingKeepsDecisions(s, AfterSend(s, h, taken), Sent(h, s.handlers[h].key, phase.reply, phase.replay));
    }
  }

  lemma SendAdvances(s: System, h: nat, taken: bool)
    requires Inv(s)
    ensures h in s.handlers && s.handlers[h].phase.Replying? ==> Advances(s, AfterSend(s, h, taken))
  {
    if h in s.handlers && s.handlers[h].phase.Replying? {
      SendKeepsExecution(s, h, taken);
      SendKeepsInvokedOnce(s, h, taken);
      SendKeepsReturns(s, h, taken);
      SendKeepsReplies(s, h, taken);
      SendKeepsDecisions(s, h, taken);
    }
  }

  lemma DropAdvances(s: System, h: nat)
    requires Inv(s)
    ensures Advances(s, s.(handlers := s.handlers - {h}))
  {
    DroppingKeepsInv(s, s.up, {h});
  }

  lemma CrashAdvances(s: System)
    requires Inv(s)
    ensures Advances(s, s.(up := false, handlers := map[]))
  {
    DroppingKeepsInv(s, false, s.handlers.Keys);
    assert s.handlers - s.handlers.Keys == map[];
  }

  lemma ReopenAdvances(s: System, now: int)
    requires Inv(s) && !s.up
    ensures Advances(s, s.(rows := MarkStale(s.rows, now), up := true))
  {
    ReopenKeepsInv(s, now);
    MarkStaleKeepsTable(s.rows, now);
  }

  /** An action that is not enabled changes nothing; each enabled one advances. */
  lemma NextAdvances(lib: Library, s: System, a: Action, t: System)
    requires Inv(s) && t == Next(lib, s, a)
    ensures Advances(s, t)
  {
    if t == s {
      return;
    }
    match a
    case Deliver(r, now, fault) =>
      DeliverKeepsInv(s, r, RequestKey(lib, r), ExtractResourceKey(lib, r.payloadJson), now, fault);
    case Invoke(h) => InvokeAdvances(s, h);
    case Return(h, outcome) => ReturnAdvances(s, h, outcome);
    case Finish(h, now, stored) =>
      if stored {
        FinishKeepsInv(s, h, now);
      } else {
        DropAdvances(s, h);
      }
    case Send(h, taken) => SendAdvances(s, h, taken);
    case Crash => CrashAdvances(s);
    case Reopen(now, swept) => ReopenAdvances(s, now);
  }

  lemma NextKeepsInv(lib: Library, s: System, a: Action)
    requires Inv(s)
    ensures Inv(Next(lib, s, a)) && WriteOnce(s.rows, Next(lib, s, a).rows)
  {
    NextAdvances(lib, s, a, Next(lib, s, a));
  }
}
