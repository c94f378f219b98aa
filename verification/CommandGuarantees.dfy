/** What the command protocol promises over every run since the database was created. */
module CommandGuarantees {
  import opened CommandHandler
  import opened CommandProtocol
  import opened Ledger
  import opened Results
  import opened Text

  lemma {:induction false} RunKeepsInv(lib: Library, s: System, actions: seq<Action>)
    requires Inv(s)
    ensures Inv(Run(lib, s, actions)) && WriteOnce(s.rows, Run(lib, s, actions).rows)
    decreases |actions|
  {
    if actions == [] {
    } else {
      var t := Next(lib, s, actions[0]);
      NextKeepsInv(lib, s, actions[0]);
      RunKeepsInv(lib, t, actions[1..]);
      WriteOnceTransitive(s.rows, t.rows, Run(lib, t, actions[1..]).rows);
    }
  }

  lemma StartSatisfiesInv()
    ensures Inv(START)
  {
  }

  lemma ReachableSatisfiesInv(lib: Library, actions: seq<Action>)
    ensures Inv(Run(lib, START, actions))
  {
    StartSatisfiesInv();
    RunKeepsInv(lib, START, actions);
  }

  // ----- at most one execution -----

  function Executions(log: seq<Event>, id: string): nat {
    if log == [] then 0
    else
      var last := log[|log| - 1];
      Executions(log[..|log| - 1], id) + if last.Invoked? && last.key.id == id then 1 else 0
  }

  lemma {:induction false} NoExecution(log: seq<Event>, id: string)
    requires forall i :: 0 <= i < |log| ==> !(log[i].Invoked? && log[i].key.id == id)
    ensures Executions(log, id) == 0
  {
    if log == [] {
    } else {
      NoExecution(log[..|log| - 1], id);
    }
  }

  lemma {:induction false} OneExecution(log: seq<Event>, id: string)
    requires forall i, j :: 0 <= i < j < |log| && log[i].Invoked? && log[j].Invoked? && log[i].key.id == id ==>
               log[j].key.id != id
    ensures Executions(log, id) <= 1
  {
    if log == [] {
    } else {
      var last := log[|log| - 1];
      if last.Invoked? && last.key.id == id {
        NoExecution(log[..|log| - 1], id);
      } else {
        OneExecution(log[..|log| - 1], id);
      }
    }
  }

  /**
   * However requests are redelivered, handlers interleave, ledger calls fail, replies get lost and the process
   * crashes and restarts, the executor runs at most once per trimmed command id, and only for the claiming handler.
   */
  lemma ExecutedAtMostOnce(lib: Library, actions: seq<Action>, id: string)
    ensures var s := Run(lib, START, actions);
            && Executions(s.log, id) <= 1
            && forall h, k :: Invoked(h, k) in s.log ==> Claimed(h, k) in s.log && Matches(s.rows, k)
  {
    ReachableSatisfiesInv(lib, actions);
    var s := Run(lib, START, actions);
    forall i, j | 0 <= i < j < |s.log| && s.log[i].Invoked? && s.log[j].Invoked? && s.log[i].key.id == id
      ensures s.log[j].key.id != id
    {
      var a, b := s.log[i], s.log[j];
      assert Invoked(a.handler, a.key) in s.log && Invoked(b.handler, b.key) in s.log;
      assert Claimed(a.handler, a.key) in s.log && Claimed(b.handler, b.key) in s.log;
      assert Matches(s.rows, a.key) && Matches(s.rows, b.key);
    }
    OneExecution(s.log, id);
  }

  /**
   * The key of a request stands for its trimmed id, type and payload. Only this reading of "the same command"
   * needs the digest to be free of collisions.
   */
  lemma KeysIdentifyCommands(lib: Library, a: Request, b: Request)
    requires forall x, y :: lib.sha256Hex(x) == lib.sha256Hex(y) ==> x == y
    ensures RequestKey(lib, a) == RequestKey(lib, b) <==>
              && Trim(a.commandId) == Trim(b.commandId)
              && Trim(a.commandType) == Trim(b.commandType)
              && Trim(a.payloadJson) == Trim(b.payloadJson)
  {
  }

  /** A delivery is claimed or decided, if at all, under its request's own key. */
  lemma DeliveryUsesRequestKey(lib: Library, s: System, r: Request, now: int, fault: BeginFault)
    ensures var t := Next(lib, s, Deliver(r, now, fault));
            t.log == s.log || t.log == s.log + [Claimed(s.nextId, RequestKey(lib, r))]
            || exists reply :: t.log == s.log + [Decided(s.nextId, RequestKey(lib, r), reply, true)]
  {
    var answer := Begin(s.rows, RequestKey(lib, r), ExtractResourceKey(lib, r.payloadJson), now, fault).1;
    if s.up && answer.Ok? && !answer.value.New? {
      assert Next(lib, s, Deliver(r, now, fault)).log
          == s.log + [Decided(s.nextId, RequestKey(lib, r), ReplyTo(answer.value), true)];
    }
  }

  // ----- sticky replies -----

  predicate Answers(e: Event, key: Key) {
    e.Decided? && e.key == key
  }

  /**
   * The answers to one command, in the order in which the ledger decides them: `running` any number of times,
   * then outcomes only, all keeping the same reply. Only the first outcome can be the executor's own.
   */
  lemma RepliesAreSticky(lib: Library, actions: seq<Action>, key: Key, i: nat, j: nat)
    requires var s := Run(lib, START, actions);
             && Matches(s.rows, key) && i < j < |s.log| && Answers(s.log[i], key) && Answers(s.log[j], key)
    ensures var log := Run(lib, START, actions).log;
            var first, later := log[i].reply, log[j].reply;
            && (first.status.Running? ==> first == STILL_RUNNING)
            && (!first.status.Running? ==>
                  !later.status.Running? && log[j].replay && later == Kept(first, log[i].replay))
  {
    ReachableSatisfiesInv(lib, actions);
    var s := Run(lib, START, actions);
    assert Decided(s.log[i].handler, key, s.log[i].reply, s.log[i].replay) in s.log;
    assert Decided(s.log[j].handler, key, s.log[j].reply, s.log[j].replay) in s.log;
    assert Agrees(s.rows, key, s.log[i].reply, s.log[i].replay);
    if !s.log[i].reply.status.Running? {
      assert Final(s.rows, s.log[i], s.log[j].key);
    }
  }

  /** A request under a used id that differs in type or payload is answered with the mismatch error, always. */
  lemma MismatchIsRefused(lib: Library, actions: seq<Action>, e: Event)
    requires var s := Run(lib, START, actions); e in s.log && e.Decided? && !Matches(s.rows, e.key)
    ensures e.reply == MISMATCH
  {
    ReachableSatisfiesInv(lib, actions);
    assert Decided(e.handler, e.key, e.reply, e.replay) in Run(lib, START, actions).log;
  }

  /** A frame carries the reply that the ledger decided for its handler. */
  lemma SentWasDecided(lib: Library, actions: seq<Action>, e: Event)
    requires e in Run(lib, START, actions).log && e.Sent?
    ensures Decided(e.handler, e.key, e.reply, e.replay) in Run(lib, START, actions).log
  {
    ReachableSatisfiesInv(lib, actions);
    assert Sent(e.handler, e.key, e.reply, e.replay) in Run(lib, START, actions).log;
  }

  /** Every outcome the executor returned in this run is one that the ledger stores unchanged. */
  ghost predicate ReturnsVerbatim(log: seq<Event>) {
    forall h, k, o :: Returned(h, k, o) in log ==> StoredVerbatim(o)
  }

  lemma VerbatimReplyIsKept(outcome: Result<string>)
    requires StoredVerbatim(outcome)
    ensures Stored(FreshReply(outcome)) == FreshReply(outcome)
  {
  }

  /** With verbatim outcomes the first outcome and all its replays are the same reply, to the letter. */
  lemma VerbatimRepliesAreConstant(lib: Library, actions: seq<Action>, key: Key, i: nat, j: nat)
    requires var s := Run(lib, START, actions);
             && Matches(s.rows, key) && i < j < |s.log| && Answers(s.log[i], key) && Answers(s.log[j], key)
             && ReturnsVerbatim(s.log) && !s.log[i].reply.status.Running?
    ensures var log := Run(lib, START, actions).log; log[j].reply == log[i].reply
  {
    RepliesAreSticky(lib, actions, key, i, j);
    ReachableSatisfiesInv(lib, actions);
    var log := Run(lib, START, actions).log;
    if !log[i].replay {
      assert Decided(log[i].handler, key, log[i].reply, false) in log;
      assert FromExecutor(log, log[i].handler, key, log[i].reply);
      var o :| Returned(log[i].handler, key, o) in log && log[i].reply == FreshReply(o);
      VerbatimReplyIsKept(o);
    }
  }

  /** If the action is a return, it returns what the agent's own executor computes for the request. */
  ghost predicate ReturnsAsShipped(p: Platform, s: System, a: Action) {
    a.Return? && a.handler in s.handlers ==>
      var r := s.handlers[a.handler].request;
      a.outcome == ExecuteAgentCommand(p, r.commandType, r.payloadJson)
  }

  /** Throughout this run the executor is the one the agent ships with. */
  ghost predicate Shipped(p: Platform, s: System, actions: seq<Action>)
    decreases |actions|
  {
    actions == []
    || (ReturnsAsShipped(p, s, actions[0]) && Shipped(p, Next(p.lib, s, actions[0]), actions[1..]))
  }

  lemma {:induction false} ShippedReturnsVerbatim(p: Platform, s: System, actions: seq<Action>)
    requires MessagesEndTidily(p.lib) && Shipped(p, s, actions) && ReturnsVerbatim(s.log)
    ensures ReturnsVerbatim(Run(p.lib, s, actions).log)
    decreases |actions|
  {
    if actions == [] {
    } else {
      var t := Next(p.lib, s, actions[0]);
      if actions[0].Return? && actions[0].handler in s.handlers {
        var r := s.handlers[actions[0].handler].request;
        ExecutorFailsVerbatim(p, r.commandType, r.payloadJson);
      }
      assert ReturnsVerbatim(t.log);
      ShippedReturnsVerbatim(p, t, actions[1..]);
    }
  }

  /** For the executor as shipped, replies to one command never change once they carry an outcome. */
  lemma ShippedRepliesAreConstant(p: Platform, actions: seq<Action>, key: Key, i: nat, j: nat)
    requires MessagesEndTidily(p.lib) && Shipped(p, START, actions)
    requires var s := Run(p.lib, START, actions);
             && Matches(s.rows, key) && i < j < |s.log| && Answers(s.log[i], key) && Answers(s.log[j], key)
             && !s.log[i].reply.status.Running?
    ensures var log := Run(p.lib, START, actions).log; log[j].reply == log[i].reply
  {
    ShippedReturnsVerbatim(p, START, actions);
    VerbatimRepliesAreConstant(p.lib, actions, key, i, j);
  }

  // ----- the table as a write-once map -----

  lemma {:induction false} RunSplits(lib: Library, s: System, before: seq<Action>, after: seq<Action>)
    ensures Run(lib, s, before + after) == Run(lib, Run(lib, s, before), after)
    decreases |before|
  {
    if before == [] {
      assert before + after == after;
    } else {
      assert (before + after)[0] == before[0] && (before + after)[1..] == before[1..] + after;
      RunSplits(lib, Next(lib, s, before[0]), before[1..], after);
    }
  }

  /** Between any two moments of a run the table behaves as a write-once map, though no statement enforces it. */
  lemma TableIsWriteOnce(lib: Library, before: seq<Action>, after: seq<Action>)
    ensures WriteOnce(Run(lib, START, before).rows, Run(lib, START, before + after).rows)
  {
    ReachableSatisfiesInv(lib, before);
    RunSplits(lib, START, before, after);
    RunKeepsInv(lib, Run(lib, START, before), after);
  }

  lemma {:induction false} SomeExecution(log: seq<Event>, h: nat, key: Key)
    requires Invoked(h, key) in log
    ensures Executions(log, key.id) >= 1
  {
    if log[|log| - 1] == Invoked(h, key) {
    } else {
      SomeExecution(log[..|log| - 1], h, key);
    }
  }

  /** A row says `succeeded` only if its command ran once and returned the value that the row keeps. */
  lemma SuccessWasReturned(lib: Library, actions: seq<Action>, id: string)
    requires var s := Run(lib, START, actions); id in s.rows && s.rows[id].reply.status.Succeeded?
    ensures var s := Run(lib, START, actions);
            exists h, value :: Returned(h, s.rows[id].key, Ok(value)) in s.log
                               && s.rows[id].reply == Reply(Succeeded, if Trim(value) == "" then "{}" else value, "")
    ensures Executions(Run(lib, START, actions).log, id) == 1
  {
    ReachableSatisfiesInv(lib, actions);
    ExecutedAtMostOnce(lib, actions, id);
    var s := Run(lib, START, actions);
    assert Caused(s.log, s.rows[id]);
    var h, o :| Returned(h, s.rows[id].key, o) in s.log && s.rows[id].reply == Stored(FreshReply(o));
    OutcomeMeans(o);
    assert Returned(h, s.rows[id].key, Ok(o.value)) in s.log;
    assert Invoked(h, s.rows[id].key) in s.log;
    SomeExecution(s.log, h, s.rows[id].key);
  }

  /**
   * A row that says `failed` without the mark of a restart is of a command that ran once and returned an error,
   * whose text the row keeps trimmed.
   */
  lemma FailureWasReturned(lib: Library, actions: seq<Action>, id: string)
    requires var s := Run(lib, START, actions); id in s.rows && s.rows[id].reply.status.Failed?
    requires Run(lib, START, actions).rows[id].reply != Reply(Failed, "{}", "agent_restart_before_completion")
    ensures var s := Run(lib, START, actions);
            exists h, m :: Returned(h, s.rows[id].key, Err(m)) in s.log
                           && s.rows[id].reply == Reply(Failed, "{}", Trim(m))
    ensures Executions(Run(lib, START, actions).log, id) == 1
  {
    ReachableSatisfiesInv(lib, actions);
    ExecutedAtMostOnce(lib, actions, id);
    var s := Run(lib, START, actions);
    assert Caused(s.log, s.rows[id]);
    var h, o :| Returned(h, s.rows[id].key, o) in s.log && s.rows[id].reply == Stored(FreshReply(o));
    OutcomeMeans(o);
    assert Returned(h, s.rows[id].key, Err(o.message)) in s.log;
    assert Invoked(h, s.rows[id].key) in s.log;
    SomeExecution(s.log, h, s.rows[id].key);
  }

  lemma FreshReplyCame(log: seq<Event>, h: nat, key: Key, reply: Reply)
    requires FromExecutor(log, h, key, reply)
    ensures || (reply.status.Succeeded? && reply.errorMessage == "" && Returned(h, key, Ok(reply.resultJson)) in log)
            || (reply.status.Failed? && reply.resultJson == "{}" && Returned(h, key, Err(reply.errorMessage)) in log)
  {
    var o :| Returned(h, key, o) in log && reply == FreshReply(o);
    assert o == if o.Ok? then Ok(reply.resultJson) else Err(reply.errorMessage);
  }

  /** A reply that is not a replay tells what the executor returned to this handler. */
  lemma FreshReplyTellsOutcome(lib: Library, actions: seq<Action>, h: nat, key: Key, reply: Reply)
    requires Decided(h, key, reply, false) in Run(lib, START, actions).log
    ensures var log := Run(lib, START, actions).log;
            || (reply.status.Succeeded? && reply.errorMessage == "" && Returned(h, key, Ok(reply.resultJson)) in log)
            || (reply.status.Failed? && reply.resultJson == "{}" && Returned(h, key, Err(reply.errorMessage)) in log)
  {
    var s := Run(lib, START, actions);
    assert FromExecutor(s.log, h, key, reply) by {
      ReachableSatisfiesInv(lib, actions);
    }
    FreshReplyCame(s.log, h, key, reply);
  }

  // ----- what a delivery leads to -----

  /**
   * A faultless redelivery to a live agent is answered, and only answered: with the recorded reply if trimmed type
   * and payload are those of the row, else with the mismatch error. Its handler is ready to send that reply.
   */
  lemma RedeliveryIsAnswered(lib: Library, s: System, r: Request, now: int)
    requires s.up && Trim(r.commandId) != "" && Trim(r.commandId) in s.rows
    ensures var t := Next(lib, s, Deliver(r, now, NoFault));
            var key := Key(Trim(r.commandId), Trim(r.commandType), lib.sha256Hex(Trim(r.payloadJson)));
            var row := s.rows[Trim(r.commandId)];
            var reply := if row.key.commandType == key.commandType && row.key.payloadHash == key.payloadHash
                         then match row.reply.status
                           case Running => Reply(Running, "{}", "")
                           case Succeeded => row.reply
                           case _ => Reply(Failed, row.reply.resultJson, row.reply.errorMessage)
                         else Reply(Failed, "{}", "command_id_payload_mismatch");
            && t.rows == s.rows && t.log == s.log + [Decided(s.nextId, key, reply, true)]
            && t.handlers == s.handlers[s.nextId := Handler(r, key, Replying(reply, true))]
  {
  }

  /** A faultless delivery of a command with an unused id is claimed, with a running row under its own key. */
  lemma NewCommandIsClaimed(lib: Library, s: System, r: Request, now: int)
    requires s.up && Trim(r.commandId) != "" && Trim(r.commandId) !in s.rows
    ensures var t := Next(lib, s, Deliver(r, now, NoFault));
            var key := Key(Trim(r.commandId), Trim(r.commandType), lib.sha256Hex(Trim(r.payloadJson)));
            && t.rows == s.rows[key.id := Row(key, ExtractResourceKey(lib, r.payloadJson), Reply(Running, "{}", ""),
                                              now, now, None, now)]
            && t.log == s.log + [Claimed(s.nextId, key)]
            && t.handlers == s.handlers[s.nextId := Handler(r, key, Accepted)]
  {
  }

  lemma FinishDecides(s: System, h: nat, now: int)
    requires WorkersClaimed(s) && h in s.handlers && s.handlers[h].phase.Executed?
    ensures var t := AfterFinish(s, h, now);
            var key, reply := s.handlers[h].key, FreshReply(s.handlers[h].phase.outcome);
            && t.log == s.log + [Decided(h, key, reply, false)]
            && h in t.handlers && t.handlers[h].phase == Replying(reply, false)
            && key.id in t.rows && t.rows[key.id].completedAt == Some(now)
            && t.rows[key.id].reply == Kept(reply, false)
  {
  }

  /** A stored completion decides the executor's outcome, and keeps it with trimmed error and non-blank output. */
  lemma OutcomeIsDecided(lib: Library, actions: seq<Action>, h: nat, now: int)
    requires var s := Run(lib, START, actions); h in s.handlers && s.handlers[h].phase.Executed?
    ensures var s := Run(lib, START, actions);
            var t := Next(lib, s, Finish(h, now, true));
            var key, outcome := s.handlers[h].key, s.handlers[h].phase.outcome;
            var reply := match outcome case Ok(v) => Reply(Succeeded, v, "") case Err(m) => Reply(Failed, "{}", m);
            && t.log == s.log + [Decided(h, key, reply, false)]
            && h in t.handlers && t.handlers[h].phase == Replying(reply, false)
            && key.id in t.rows && t.rows[key.id].completedAt == Some(now)
            && t.rows[key.id].reply == match outcome
                                       case Ok(v) => Reply(Succeeded, if Trim(v) == "" then "{}" else v, "")
                                       case Err(m) => Reply(Failed, "{}", Trim(m))
  {
    var s := Run(lib, START, actions);
    assert WorkersClaimed(s) by {
      ReachableSatisfiesInv(lib, actions);
    }
    FinishDecides(s, h, now);
    OutcomeMeans(s.handlers[h].phase.outcome);
  }

  /** When `open` has succeeded no row is left running. */
  lemma OpenLeavesNothingRunning(lib: Library, actions: seq<Action>, now: int, id: string)
    requires !Run(lib, START, actions).up
    requires id in Run(lib, START, actions + [Reopen(now, true)]).rows
    ensures !Run(lib, START, actions + [Reopen(now, true)]).rows[id].reply.status.Running?
  {
    RunSplits(lib, START, actions, [Reopen(now, true)]);
    var s := Run(lib, START, actions);
    assert Run(lib, s, [Reopen(now, true)]) == Next(lib, s, Reopen(now, true));
  }

  // ----- what a restart mark does not say -----

  lemma RunStep(lib: Library, s: System, a: Action, rest: seq<Action>)
    ensures Run(lib, s, [a] + rest) == Run(lib, Next(lib, s, a), rest)
  {
    assert ([a] + rest)[1..] == rest;
  }

  /** A crash and a restart, perhaps after handler `h` has invoked the executor. */
  function CutOff(h: nat, ran: bool, now: int): seq<Action> {
    var restart := [Crash] + ([Reopen(now, true)] + []);
    if ran then [Invoke(h)] + restart else restart
  }

  lemma Restart(lib: Library, s: System, now: int)
    requires s.up
    ensures var t := Run(lib, s, [Crash] + ([Reopen(now, true)] + []));
            t.log == s.log && t.rows == MarkStale(s.rows, now)
  {
    var down := s.(up := false, handlers := map[]);
    RunStep(lib, s, Crash, [Reopen(now, true)] + []);
    RunStep(lib, down, Reopen(now, true), []);
  }

  lemma CutOffLeaves(lib: Library, s: System, h: nat, ran: bool, now: int)
    requires s.up && h in s.handlers && s.handlers[h].phase.Accepted?
    ensures var t := Run(lib, s, CutOff(h, ran, now));
            && t.rows == MarkStale(s.rows, now)
            && t.log == s.log + if ran then [Invoked(h, s.handlers[h].key)] else []
  {
    if ran {
      RunStep(lib, s, Invoke(h), [Crash] + ([Reopen(now, true)] + []));
      Restart(lib, AfterInvoke(s, h), now);
    } else {
      Restart(lib, s, now);
    }
  }

  lemma ExecutionsAppend(log: seq<Event>, e: Event, id: string)
    ensures Executions(log + [e], id) == Executions(log, id) + if e.Invoked? && e.key.id == id then 1 else 0
  {
    assert (log + [e])[..|log|] == log;
  }

  /** A handler that has only claimed its command is the first to execute anything under that id. */
  lemma NotYetExecuted(s: System, h: nat)
    requires ClaimsUnique(s) && WorkersClaimed(s) && InvokedOnce(s)
    requires h in s.handlers && s.handlers[h].phase.Accepted?
    ensures Executions(s.log, s.handlers[h].key.id) == 0
  {
    var key := s.handlers[h].key;
    forall i | 0 <= i < |s.log| && s.log[i].Invoked? ensures s.log[i].key.id != key.id {
      var e := s.log[i];
      assert Invoked(e.handler, e.key) in s.log;
      assert Claimed(e.handler, e.key) in s.log && Matches(s.rows, e.key);
    }
    NoExecution(s.log, key.id);
  }

  /**
   * The restart mark tells nothing about execution. Whenever in a run a handler has claimed its command, a crash at
   * once and a crash after the executor was invoked leave the same table, with the restart mark for this command.
   */
  lemma RestartMarkIsSilentAboutExecution(lib: Library, actions: seq<Action>, h: nat, now: int)
    requires var s := Run(lib, START, actions); h in s.handlers && s.handlers[h].phase.Accepted?
    ensures var s := Run(lib, START, actions);
            var ran, idle := Run(lib, s, CutOff(h, true, now)), Run(lib, s, CutOff(h, false, now));
            var id := s.handlers[h].key.id;
            && ran.rows == idle.rows && id in ran.rows
            && ran.rows[id].reply == Reply(Failed, EMPTY_JSON, RESTART_ERROR)
            && Executions(ran.log, id) == 1 && Executions(idle.log, id) == 0
  {
    ReachableSatisfiesInv(lib, actions);
    var s := Run(lib, START, actions);
    var key := s.handlers[h].key;
    CutOffLeaves(lib, s, h, true, now);
    CutOffLeaves(lib, s, h, false, now);
    MarkStaleKeepsTable(s.rows, now);
    NotYetExecuted(s, h);
    ExecutionsAppend(s.log, Invoked(h, key), key.id);
    assert s.log + [] == s.log;
  }

  /** Every request with an id gets that far: the first one to a fresh agent, for instance. */
  lemma FirstCommandIsClaimed(lib: Library, r: Request, now: int)
    requires Trim(r.commandId) != ""
    ensures var s := Run(lib, START, [Reopen(now, true)] + ([Deliver(r, now, NoFault)] + []));
            s.handlers == map[0 := Handler(r, RequestKey(lib, r), Accepted)]
  {
    var open := START.(up := true);
    assert Next(lib, START, Reopen(now, true)) == open;
    RunStep(lib, START, Reopen(now, true), [Deliver(r, now, NoFault)] + []);
    RunStep(lib, open, Deliver(r, now, NoFault), []);
  }
}
