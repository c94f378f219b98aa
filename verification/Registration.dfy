/** The session task's message handler and the heartbeat task, as the sequential code that each of them is. */
module Registration {
  import opened CommandGuarantees
  import opened CommandProtocol
  import opened Ledger
  import opened Results
  import opened Text

  datatype Message =
    | HostInventory
    | Heartbeat
    | CommandResult(commandId: string, reply: Reply)

  datatype Frame = Frame(streamId: string, number: nat, message: Message)

  datatype Inbound = RegisterAck | HeartbeatAck | Command(request: Request) | Empty

  const HOST_INVENTORY_SEND_MAX_ATTEMPTS := 3

  /** The atomic counter shared by the producers of a session. */
  class SequenceCounter {
    var value: nat

    constructor ()
      ensures value == 1
    {
      value := 1;
    }

    method FetchAdd() returns (n: nat)
      modifies this
      ensures n == old(value) && value == old(value) + 1
    {
      n := value;
      value := value + 1;
    }
  }

  /** The sending half of the channel to the hypervisor. */
  class Outbound {
    var frames: seq<Frame>

    constructor ()
      ensures frames == []
    {
      frames := [];
    }

    /** `taken` says whether the receiver was still there. */
    method Send(frame: Frame, taken: bool) returns (ok: bool)
      modifies this
      ensures ok == taken
      ensures frames == if taken then old(frames) + [frame] else old(frames)
    {
      if taken {
        frames := frames + [frame];
      }
      ok := taken;
    }
  }

  /** How the calls of one command arm turn out. */
  datatype Fates = Fates(
    begunAt: int,
    begin: BeginFault,
    outcome: Result<string>,
    finishedAt: int,
    stored: bool,
    taken: bool)

  /** Table and decided reply, if any, after the ledger part of the command arm. */
  function KeyEffect(rows: Table, key: Key, resourceKey: Option<string>, f: Fates): (Table, Option<Reply>) {
    var (begun, answer) := Begin(rows, key, resourceKey, f.begunAt, f.begin);
    if answer.Err? then (begun, None)
    else if !answer.value.New? then (begun, Some(ReplyTo(answer.value)))
    else if !f.stored then (begun, None)
    else
      var reply := FreshReply(f.outcome);
      (Complete(begun, key.id, Kept(reply, false), f.finishedAt), Some(reply))
  }

  function CommandEffect(lib: Library, rows: Table, r: Request, f: Fates): (Table, Option<Reply>) {
    KeyEffect(rows, RequestKey(lib, r), ExtractResourceKey(lib, r.payloadJson), f)
  }

  /** Index of the first successful attempt among the given ones, or their number. */
  function FirstSuccess(taken: seq<bool>): (k: nat)
    ensures k <= |taken|
    ensures k < |taken| ==> taken[k]
    ensures forall i :: 0 <= i < k ==> !taken[i]
  {
    if taken == [] || taken[0] then 0 else 1 + FirstSuccess(taken[1..])
  }

  lemma CompletesNewRow(rows: Table, row: Row, id: string, kept: Reply, now: int)
    ensures Complete(rows[id := row], id, kept, now) == rows[id := Finished(row, kept, now)]
  {
  }

  lemma NewEffectMeans(rows: Table, key: Key, resourceKey: Option<string>, f: Fates)
    requires key.id != "" && key.id !in rows
    ensures var (after, reply) := KeyEffect(rows, key, resourceKey, f);
            && (!f.begin.NoFault? ==> reply == None)
            && (f.begin.NoFault? ==>
                  key.id in after && after == rows[key.id := after[key.id]] && after[key.id].key == key)
            && (f.begin.NoFault? && !f.stored ==> reply == None && after[key.id].reply == Reply(Running, "{}", ""))
            && (f.begin.NoFault? && f.stored ==>
                  && after[key.id].completedAt == Some(f.finishedAt)
                  && reply == Some(FreshReply(f.outcome))
                  && after[key.id].reply == Kept(FreshReply(f.outcome), false))
  {
    var row := Row(key, resourceKey, STILL_RUNNING, f.begunAt, f.begunAt, None, f.begunAt);
    CompletesNewRow(rows, row, key.id, Kept(FreshReply(f.outcome), false), f.finishedAt);
  }

  lemma ReplayEffectMeans(rows: Table, key: Key, resourceKey: Option<string>, f: Fates)
    requires key.id != "" && key.id in rows && !f.begin.LockPoisoned? && !f.begin.LoadFails?
    ensures var row := rows[key.id];
            KeyEffect(rows, key, resourceKey, f) ==
            (rows, Some(if row.key.commandType == key.commandType && row.key.payloadHash == key.payloadHash
                        then match row.reply.status
                          case Running => Reply(Running, "{}", "")
                          case Succeeded => row.reply
                          case _ => Reply(Failed, row.reply.resultJson, row.reply.errorMessage)
                        else Reply(Failed, "{}", "command_id_payload_mismatch")))
  {
  }

  /**
   * The command arm up to the reply. A command claimed here is answered with the outcome of its execution, which its
   * row then holds, normalised; a redelivery with what its row holds; a used id for another command with the
   * mismatch error. Without a reply, only a claim whose completion was not stored leaves a trace.
   */
  method DecideReply(q: Request, ledger: CommandLedger, f: Fates) returns (reply: Result<Reply>)
    modifies ledger.db
    ensures (ledger.db.rows, if reply.Ok? then Some(reply.value) else None)
         == CommandEffect(ledger.lib, old(ledger.db.rows), q, f)
    ensures Trim(q.commandId) == "" || f.begin.LockPoisoned? || f.begin.LoadFails? ==>
              reply.Err? && ledger.db.rows == old(ledger.db.rows)
    ensures var before, id := old(ledger.db.rows), Trim(q.commandId);
            (id != "" && id !in before && f.begin.NoFault? && f.stored) ==>
              && id in ledger.db.rows
              && var row := ledger.db.rows[id];
                 && ledger.db.rows == before[id := row] && row.completedAt == Some(f.finishedAt)
                 && row.key == Key(id, Trim(q.commandType), ledger.lib.sha256Hex(Trim(q.payloadJson)))
                 && match f.outcome
                    case Ok(v) =>
                      && reply == Ok(Reply(Succeeded, v, ""))
                      && row.reply == Reply(Succeeded, if Trim(v) == "" then "{}" else v, "")
                    case Err(m) =>
                      && reply == Ok(Reply(Failed, "{}", m))
                      && row.reply == Reply(Failed, "{}", Trim(m))
    ensures var before, id := old(ledger.db.rows), Trim(q.commandId);
            (id != "" && id !in before && f.begin.NoFault? && !f.stored) ==>
              && reply.Err? && id in ledger.db.rows
              && ledger.db.rows == before[id := ledger.db.rows[id]]
              && ledger.db.rows[id].reply == Reply(Running, "{}", "")
    ensures var before, id := old(ledger.db.rows), Trim(q.commandId);
            (id != "" && id !in before && !f.begin.NoFault?) ==> reply.Err?
    ensures var before, id := old(ledger.db.rows), Trim(q.commandId);
            (id != "" && !f.begin.LockPoisoned? && !f.begin.LoadFails? && id in before) ==>
              && ledger.db.rows == before && reply.Ok?
              && var row := before[id];
                 if row.key.commandType == Trim(q.commandType)
                    && row.key.payloadHash == ledger.lib.sha256Hex(Trim(q.payloadJson))
                 then reply.value == match row.reply.status
                                     case Running => Reply(Running, "{}", "")
                                     case Succeeded => row.reply
                                     case _ => Reply(Failed, row.reply.resultJson, row.reply.errorMessage)
                 else reply.value == Reply(Failed, "{}", "command_id_payload_mismatch")
  {
    ghost var before := ledger.db.rows;
    reply := ReplyToCommand(q, ledger, f);
    ghost var key := RequestKey(ledger.lib, q);
    ghost var resourceKey := ExtractResourceKey(ledger.lib, q.payloadJson);
    if key.id != "" {
      if key.id !in before {
        NewEffectMeans(before, key, resourceKey, f);
        OutcomeMeans(f.outcome);
      } else if !f.begin.LockPoisoned? && !f.begin.LoadFails? {
        ReplayEffectMeans(before, key, resourceKey, f);
      }
    }
  }

  method ReplyToCommand(q: Request, ledger: CommandLedger, f: Fates) returns (reply: Result<Reply>)
    modifies ledger.db
    ensures (ledger.db.rows, if reply.Ok? then Some(reply.value) else None)
         == CommandEffect(ledger.lib, old(ledger.db.rows), q, f)
  {
    var answer := ledger.BeginOrGet(q.commandId, q.commandType, q.payloadJson, f.begunAt, f.begin);
    if answer.Err? {
      return Err(answer.message);
    }
    match answer.value
    case New(_) =>
      var result;
      match f.outcome {
        case Ok(value) => result := Reply(Succeeded, value, "");
        case Err(m) => result := Reply(Failed, EMPTY_JSON, m);
      }
      ghost var begun := ledger.db.rows;
      var done := ledger.CompleteCommand(q.commandId, result, f.finishedAt, f.stored);
      if done.Err? {
        return Err(done.message);
      }
      UpdatedIsComplete(begun, ledger.db.rows, Trim(q.commandId), Stored(result), f.finishedAt);
      return Ok(result);
    case Existing(row) =>
      return Ok(match row.reply.status
                case Running => STILL_RUNNING
                case Succeeded => row.reply
                case _ => row.reply.(status := Failed));
    case PayloadMismatch(_) =>
      return Ok(MISMATCH);
  }

  method HandleServerMessage(inbound: Inbound, tx: Outbound, streamId: string, seqNo: SequenceCounter,
                             ledger: CommandLedger, f: Fates, inventory: seq<bool>)
    returns (r: Result<()>, ghost reply: Option<Reply>)
    requires |inventory| == HOST_INVENTORY_SEND_MAX_ATTEMPTS
    modifies tx, seqNo, ledger.db
    ensures !inbound.Command? ==> ledger.db.rows == old(ledger.db.rows)
    ensures inbound.HeartbeatAck? || inbound.Empty? ==>
              r.Ok? && tx.frames == old(tx.frames) && seqNo.value == old(seqNo.value)
    ensures inbound.RegisterAck? ==>
              var k := FirstSuccess(inventory);
              if k < 3
              then r.Ok? && seqNo.value == old(seqNo.value) + k + 1
                   && tx.frames == old(tx.frames) + [Frame(streamId, old(seqNo.value) + k, HostInventory)]
              else r.Err? && seqNo.value == old(seqNo.value) + 3 && tx.frames == old(tx.frames)
    ensures inbound.Command? ==>
              && (ledger.db.rows, reply) == CommandEffect(ledger.lib, old(ledger.db.rows), inbound.request, f)
              && seqNo.value == old(seqNo.value) + (if reply.Some? then 1 else 0)
              && (r.Ok? <==> reply.Some? && f.taken)
              && tx.frames == if r.Ok?
                 then old(tx.frames) + [Frame(streamId, old(seqNo.value),
                                              CommandResult(inbound.request.commandId, reply.value))]
                 else old(tx.frames)
    // A new command: what is enqueued and what is kept.
    ensures (inbound.Command? && Trim(inbound.request.commandId) != ""
             && Trim(inbound.request.commandId) !in old(ledger.db.rows) && f.begin.NoFault? && f.stored) ==>
              && Trim(inbound.request.commandId) in ledger.db.rows
              && var kept := ledger.db.rows[Trim(inbound.request.commandId)].reply;
                 match f.outcome
                 case Ok(v) =>
                   && reply == Some(Reply(Succeeded, v, ""))
                   && kept == Reply(Succeeded, if Trim(v) == "" then "{}" else v, "")
                 case Err(m) =>
                   && reply == Some(Reply(Failed, "{}", m))
                   && kept == Reply(Failed, "{}", Trim(m))
    // A redelivery: the recorded reply, over an unchanged table.
    ensures (inbound.Command? && Trim(inbound.request.commandId) != ""
             && Trim(inbound.request.commandId) in old(ledger.db.rows)
             && !f.begin.LockPoisoned? && !f.begin.LoadFails?) ==>
              && ledger.db.rows == old(ledger.db.rows) && reply.Some?
              && var row := ledger.db.rows[Trim(inbound.request.commandId)];
                 if row.key.commandType == Trim(inbound.request.commandType)
                    && row.key.payloadHash == ledger.lib.sha256Hex(Trim(inbound.request.payloadJson))
                 then reply.value == match row.reply.status
                                     case Running => Reply(Running, "{}", "")
                                     case Succeeded => row.reply
                                     case _ => Reply(Failed, row.reply.resultJson, row.reply.errorMessage)
                 else reply.value == Reply(Failed, "{}", "command_id_payload_mismatch")
    // Nothing is answered without an id, or if the ledger fails.
    ensures (inbound.Command?
             && (Trim(inbound.request.commandId) == "" || f.begin.LockPoisoned? || f.begin.LoadFails?
                 || (Trim(inbound.request.commandId) !in old(ledger.db.rows) && !(f.begin.NoFault? && f.stored)))) ==>
              r.Err? && reply == None && tx.frames == old(tx.frames)
  {
    reply := None;
    match inbound
    case RegisterAck =>
      r := SendHostInventoryWithRetry(tx, streamId, seqNo, inventory);
    case Command(request) =>
      var decided := DecideReply(request, ledger, f);
      if decided.Err? {
        return Err(decided.message), None;
      }
      var n := seqNo.FetchAdd();
      var ok := tx.Send(Frame(streamId, n, CommandResult(request.commandId, decided.value)), f.taken);
      return if ok then Ok(()) else Err("send command result"), Some(decided.value);
    case _ =>
      return Ok(()), None;
  }

  /** Every attempt takes a number of its own; the frame is enqueued once, by the first attempt that gets through. */
  method SendHostInventoryWithRetry(tx: Outbound, streamId: string, seqNo: SequenceCounter, taken: seq<bool>)
    returns (r: Result<()>)
    requires |taken| == HOST_INVENTORY_SEND_MAX_ATTEMPTS
    modifies tx, seqNo
    ensures var k := FirstSuccess(taken);
            if k < 3
            then r.Ok? && seqNo.value == old(seqNo.value) + k + 1
                 && tx.frames == old(tx.frames) + [Frame(streamId, old(seqNo.value) + k, HostInventory)]
            else r.Err? && seqNo.value == old(seqNo.value) + 3 && tx.frames == old(tx.frames)
  {
    var lastError := None;
    for attempt := 1 to HOST_INVENTORY_SEND_MAX_ATTEMPTS + 1
      invariant seqNo.value == old(seqNo.value) + attempt - 1 && tx.frames == old(tx.frames)
      invariant forall i :: 0 <= i < attempt - 1 ==> !taken[i]
      invariant lastError.Some? <==> attempt > 1
    {
      var n := seqNo.FetchAdd();
      var ok := tx.Send(Frame(streamId, n, HostInventory), taken[attempt - 1]);
      if ok {
        return Ok(());
      }
      lastError := Some("channel closed");
    }
    return match lastError case Some(m) => Err(m) case None => Ok(());
  }

  /** What the other producers do at some point: take some numbers and enqueue some frames. */
  datatype Others = Others(took: nat, frames: seq<Frame>)

  /** One turn of the heartbeat loop. The others act before the tick, and between taking its number and the send. */
  datatype Turn = Turn(before: Others, cancelled: bool, between: Others, taken: bool)

  /** The others' frames of a turn that gets as far as the send, unless it is cancelled. */
  function Heard(turn: Turn): seq<Frame> {
    turn.before.frames + if turn.cancelled then [] else turn.between.frames
  }

  ghost predicate RisingFrom(frames: seq<Frame>, from: nat, to: nat) {
    && (forall i :: 0 <= i < |frames| ==> from <= frames[i].number < to)
    && (forall i, j :: 0 <= i < j < |frames| ==> frames[i].number < frames[j].number)
  }

  /** How many numbers are taken before the loop takes its own in the i-th turn. */
  function TakenBefore(turns: seq<Turn>, i: nat): nat
    requires i < |turns|
  {
    turns[i].before.took + if i == 0 then 0 else TakenBefore(turns, i - 1) + 1 + turns[i - 1].between.took
  }

  /** What the channel takes in over the first turns, each of which enqueues one of the heartbeats. */
  function Woven(turns: seq<Turn>, mine: seq<Frame>): seq<Frame>
    requires |mine| <= |turns|
  {
    if mine == [] then []
    else
      var n := |mine| - 1;
      Woven(turns, mine[..n]) + Heard(turns[n]) + [mine[n]]
  }

  lemma OneMoreBeat(before: seq<Frame>, turns: seq<Turn>, mine: seq<Frame>, frame: Frame)
    requires |mine| < |turns|
    ensures before + Woven(turns, mine) + Heard(turns[|mine|]) + [frame] == before + Woven(turns, mine + [frame])
  {
    assert (mine + [frame])[..|mine|] == mine;
  }

  lemma {:induction false} NumbersRise(turns: seq<Turn>, i: nat, j: nat)
    requires i < j < |turns|
    ensures TakenBefore(turns, i) < TakenBefore(turns, j)
  {
    if i == j - 1 {
    } else {
      NumbersRise(turns, i, j - 1);
    }
  }

  /** The first heartbeats, each with the number that the others leave to it. */
  ghost predicate Numbered(mine: seq<Frame>, streamId: string, from: nat, turns: seq<Turn>) {
    && |mine| <= |turns|
    && forall i :: 0 <= i < |mine| ==> mine[i] == Frame(streamId, from + TakenBefore(turns, i), Heartbeat)
  }

  lemma {:induction false} NumberedOneMore(mine: seq<Frame>, streamId: string, from: nat, turns: seq<Turn>,
                                           frame: Frame)
    requires Numbered(mine, streamId, from, turns) && |mine| < |turns|
    requires frame == Frame(streamId, from + TakenBefore(turns, |mine|), Heartbeat)
    ensures Numbered(mine + [frame], streamId, from, turns)
    ensures |mine| + 1 < |turns| ==>
              TakenBefore(turns, |mine| + 1)
                == turns[|mine| + 1].before.took + TakenBefore(turns, |mine|) + 1 + turns[|mine|].between.took
  {
  }

  lemma FramesRise(turns: seq<Turn>, frames: seq<Frame>, streamId: string, from: nat, to: nat)
    requires Numbered(frames, streamId, from, turns)
    requires frames != [] ==> frames[|frames| - 1].number < to
    ensures RisingFrom(frames, from, to)
  {
    forall i, j | 0 <= i < j < |frames| ensures frames[i].number < frames[j].number {
      NumbersRise(turns, i, j);
    }
    if frames != [] {
      assert forall i :: 0 <= i < |frames| - 1 ==> frames[i].number < frames[|frames| - 1].number;
    }
  }

  method Interfere(tx: Outbound, seqNo: SequenceCounter, others: Others)
    modifies tx, seqNo
    ensures seqNo.value == old(seqNo.value) + others.took && tx.frames == old(tx.frames) + others.frames
  {
    seqNo.value := seqNo.value + others.took;
    tx.frames := tx.frames + others.frames;
  }

  /** One turn: nothing is enqueued if it is the cancellation, or if the channel turns out to be closed. */
  method Beat(tx: Outbound, streamId: string, seqNo: SequenceCounter, turn: Turn) returns (mine: Option<Frame>)
    modifies tx, seqNo
    ensures mine.Some? <==> !turn.cancelled && turn.taken
    ensures tx.frames == old(tx.frames) + Heard(turn) + if mine.Some? then [mine.value] else []
    ensures mine.Some? ==> mine.value == Frame(streamId, old(seqNo.value) + turn.before.took, Heartbeat)
    ensures seqNo.value == old(seqNo.value) + turn.before.took + if turn.cancelled then 0 else 1 + turn.between.took
  {
    Interfere(tx, seqNo, turn.before);
    if turn.cancelled {
      return None;
    }
    var n := seqNo.FetchAdd();
    var frame := Frame(streamId, n, Heartbeat);
    Interfere(tx, seqNo, turn.between);
    var ok := tx.Send(frame, turn.taken);
    return if ok then Some(frame) else None;
  }

  /** Where the loop stands after some heartbeats, each of a turn that got through. */
  ghost predicate Beating(mine: seq<Frame>, streamId: string, turns: seq<Turn>, from: nat, before: seq<Frame>,
                          number: nat, frames: seq<Frame>) {
    && Numbered(mine, streamId, from, turns)
    && (forall i :: 0 <= i < |mine| ==> !turns[i].cancelled && turns[i].taken)
    && frames == before + Woven(turns, mine)
    && (|mine| < |turns| ==> number + turns[|mine|].before.took == from + TakenBefore(turns, |mine|))
    && from <= number && (mine != [] ==> mine[|mine| - 1].number < number)
  }

  /** One turn of the loop, from there to where it stands next, or to its end. */
  method BeatOnce(tx: Outbound, streamId: string, seqNo: SequenceCounter, turns: seq<Turn>, mine: seq<Frame>,
                  ghost from: nat, ghost before: seq<Frame>)
    returns (longer: seq<Frame>)
    requires |mine| < |turns| && Beating(mine, streamId, turns, from, before, seqNo.value, tx.frames)
    modifies tx, seqNo
    ensures if turns[|mine|].cancelled || !turns[|mine|].taken
            then longer == mine && tx.frames == before + Woven(turns, mine) + Heard(turns[|mine|])
                 && seqNo.value >= old(seqNo.value)
            else |longer| == |mine| + 1 && Beating(longer, streamId, turns, from, before, seqNo.value, tx.frames)
  {
    var frame := Beat(tx, streamId, seqNo, turns[|mine|]);
    longer := mine;
    if frame.Some? {
      OneMoreBeat(before, turns, mine, frame.value);
      NumberedOneMore(mine, streamId, from, turns, frame.value);
      longer := mine + [frame.value];
    }
  }

  /**
   * The loop enqueues one heartbeat per tick until it is cancelled or the channel closes. Its numbers rise, and its
   * frames stand in the channel among those of the others in the order of the turns.
   */
  method RunHeartbeatLoop(tx: Outbound, streamId: string, seqNo: SequenceCounter, turns: seq<Turn>)
    returns (mine: seq<Frame>)
    modifies tx, seqNo
    ensures |mine| <= |turns| && forall i :: 0 <= i < |mine| ==> !turns[i].cancelled && turns[i].taken
    ensures |mine| < |turns| ==> turns[|mine|].cancelled || !turns[|mine|].taken
    ensures tx.frames == old(tx.frames) + Woven(turns, mine) + if |mine| < |turns| then Heard(turns[|mine|]) else []
    ensures forall i :: 0 <= i < |mine| ==>
              mine[i] == Frame(streamId, old(seqNo.value) + TakenBefore(turns, i), Heartbeat)
    ensures RisingFrom(mine, old(seqNo.value), seqNo.value)
  {
    mine := [];
    ghost var from, before := seqNo.value, tx.frames;
    while |mine| < |turns|
      invariant Beating(mine, streamId, turns, from, before, seqNo.value, tx.frames)
      decreases |turns| - |mine|
    {
      var longer := BeatOnce(tx, streamId, seqNo, turns, mine, from, before);
      if |longer| == |mine| {
        break;
      }
      mine := longer;
    }
    FramesRise(turns, mine, streamId, from, seqNo.value);
  }

  // ----- the sequential handler is a schedule of the step system -----

  /** The actions of one handler, undisturbed. */
  function Script(r: Request, h: nat, f: Fates): seq<Action> {
    [Deliver(r, f.begunAt, f.begin)]
    + ([Invoke(h)] + ([Return(h, f.outcome)] + ([Finish(h, f.finishedAt, f.stored)] + ([Send(h, f.taken)] + []))))
  }

  lemma ScriptRuns(lib: Library, s: System, r: Request, f: Fates)
    ensures var h := s.nextId;
            var begun := Next(lib, s, Deliver(r, f.begunAt, f.begin));
            var executed := Next(lib, Next(lib, begun, Invoke(h)), Return(h, f.outcome));
            Run(lib, s, Script(r, h, f))
              == Next(lib, Next(lib, executed, Finish(h, f.finishedAt, f.stored)), Send(h, f.taken))
  {
    var h := s.nextId;
    var send := [Send(h, f.taken)] + [];
    var finish := [Finish(h, f.finishedAt, f.stored)] + send;
    var begun := Next(lib, s, Deliver(r, f.begunAt, f.begin));
    var invoked := Next(lib, begun, Invoke(h));
    var executed := Next(lib, invoked, Return(h, f.outcome));
    RunStep(lib, s, Deliver(r, f.begunAt, f.begin), [Invoke(h)] + ([Return(h, f.outcome)] + finish));
    RunStep(lib, begun, Invoke(h), [Return(h, f.outcome)] + finish);
    RunStep(lib, invoked, Return(h, f.outcome), finish);
    RunStep(lib, executed, Finish(h, f.finishedAt, f.stored), send);
    RunStep(lib, Next(lib, executed, Finish(h, f.finishedAt, f.stored)), Send(h, f.taken), []);
  }

  /** A claimed handler after its execution. */
  function Executed(s: System, h: nat, outcome: Result<string>): System
    requires h in s.handlers
  {
    var key := s.handlers[h].key;
    s.(handlers := s.handlers[h := s.handlers[h].(phase := Phase.Executed(outcome))],
       log := s.log + [Invoked(h, key)] + [Returned(h, key, outcome)])
  }

  /** A handler that executes, from its claim to the end of the executor. */
  lemma ExecutionAdvances(lib: Library, s: System, h: nat, outcome: Result<string>)
    requires h in s.handlers && s.handlers[h].phase.Accepted?
    ensures Next(lib, Next(lib, s, Invoke(h)), Return(h, outcome)) == Executed(s, h, outcome)
  {
  }

  /** The last step of a handler that has its reply. */
  lemma ReplyLeaves(lib: Library, s: System, h: nat, taken: bool)
    requires h in s.handlers && s.handlers[h].phase.Replying?
    ensures var t := Next(lib, s, Send(h, taken));
            var phase := s.handlers[h].phase;
            && t.rows == s.rows && t.up == s.up && t.handlers == s.handlers - {h}
            && t.log == s.log + if taken then [Sent(h, s.handlers[h].key, phase.reply, phase.replay)] else []
  {
  }

  lemma UnstoredFinishDrops(lib: Library, s: System, h: nat, now: int, taken: bool)
    requires h in s.handlers && s.handlers[h].phase.Executed?
    ensures Next(lib, Next(lib, s, Finish(h, now, false)), Send(h, taken)) == s.(handlers := s.handlers - {h})
  {
    var dropped := s.(handlers := s.handlers - {h});
    assert Next(lib, s, Finish(h, now, false)) == dropped && h !in dropped.handlers;
  }

  lemma FinishedReplies(s: System, h: nat, now: int, taken: bool)
    requires h in s.handlers && s.handlers[h].phase.Executed?
    ensures var key := s.handlers[h].key;
            var reply := FreshReply(s.handlers[h].phase.outcome);
            var decided := AfterFinish(s, h, now);
            && h in decided.handlers && decided.handlers[h].phase.Replying?
            && var t := AfterSend(decided, h, taken);
               && t.up == s.up && t.handlers == s.handlers - {h}
               && t.rows == Complete(s.rows, key.id, Kept(reply, false), now)
               && t.log == s.log + [Decided(h, key, reply, false)] + if taken then [Sent(h, key, reply, false)] else []
  {
    var decided := AfterFinish(s, h, now);
    assert decided.handlers - {h} == s.handlers - {h};
    assert decided.log + [] == decided.log;
  }

  lemma StoredFinishReplies(lib: Library, s: System, h: nat, now: int, taken: bool)
    requires h in s.handlers && s.handlers[h].phase.Executed?
    requires var decided := AfterFinish(s, h, now); h in decided.handlers && decided.handlers[h].phase.Replying?
    ensures Next(lib, Next(lib, s, Finish(h, now, true)), Send(h, taken)) == AfterSend(AfterFinish(s, h, now), h, taken)
  {
  }

  lemma NewHandlerFinishes(lib: Library, s: System, h: nat, f: Fates)
    requires h in s.handlers && s.handlers[h].phase.Executed? && s.handlers[h].phase.outcome == f.outcome
    ensures var key := s.handlers[h].key;
            var reply := FreshReply(f.outcome);
            var t := Next(lib, Next(lib, s, Finish(h, f.finishedAt, f.stored)), Send(h, f.taken));
            && t.up == s.up && t.handlers == s.handlers - {h}
            && t.rows == (if f.stored then Complete(s.rows, key.id, Kept(reply, false), f.finishedAt) else s.rows)
            && t.log == s.log + (if f.stored then [Decided(h, key, reply, false)] else [])
                              + (if f.stored && f.taken then [Sent(h, key, reply, false)] else [])
  {
    if f.stored {
      FinishedReplies(s, h, f.finishedAt, f.taken);
      StoredFinishReplies(lib, s, h, f.finishedAt, f.taken);
    } else {
      UnstoredFinishDrops(lib, s, h, f.finishedAt, f.taken);
      assert s.log + [] + [] == s.log;
    }
  }

  /** The steps of handler `h` after its delivery. */
  function Rest(lib: Library, s: System, h: nat, f: Fates): System {
    var executed := Next(lib, Next(lib, s, Invoke(h)), Return(h, f.outcome));
    Next(lib, Next(lib, executed, Finish(h, f.finishedAt, f.stored)), Send(h, f.taken))
  }

  /** No frame has been sent since the log had the given length. */
  ghost predicate NothingSent(log: seq<Event>, from: nat, to: nat) {
    to <= |log| && forall i :: from <= i < to ==> !log[i].Sent?
  }

  /**
   * The handler next in line has come and gone: the table is as given, and if there is a reply and the channel took
   * it, then exactly that reply has been sent, by this handler, under its own key.
   */
  ghost predicate Carried(s: System, t: System, key: Key, rows: Table, reply: Option<Reply>, taken: bool) {
    && t.rows == rows && t.up && t.handlers == s.handlers && s.log <= t.log
    && if reply.Some? && taken
       then && |t.log| > |s.log|
            && var last := |t.log| - 1;
               t.log[last].Sent? && t.log[last].handler == s.nextId && t.log[last].key == key
               && t.log[last].reply == reply.value && NothingSent(t.log, |s.log|, last)
       else NothingSent(t.log, |s.log|, |t.log|)
  }

  /** A log that has grown by events other than frames sent, and by the handler's own frame if it was taken. */
  lemma LogTells(s: System, t: System, key: Key, events: seq<Event>, reply: Option<Reply>, replay: bool, taken: bool)
    requires t.up && t.handlers == s.handlers && forall i :: 0 <= i < |events| ==> !events[i].Sent?
    requires t.log == s.log + events + if reply.Some? && taken then [Sent(s.nextId, key, reply.value, replay)] else []
    ensures Carried(s, t, key, t.rows, reply, taken)
  {
    assert s.log + events <= t.log;
  }

  /** The events of an execution other than frames sent. */
  function ExecutionEvents(h: nat, key: Key, f: Fates): seq<Event> {
    [Invoked(h, key)] + [Returned(h, key, f.outcome)]
    + if f.stored then [Decided(h, key, FreshReply(f.outcome), false)] else []
  }

  lemma EventsJoin(log: seq<Event>, h: nat, key: Key, f: Fates, sent: seq<Event>)
    ensures log + [Invoked(h, key)] + [Returned(h, key, f.outcome)]
            + (if f.stored then [Decided(h, key, FreshReply(f.outcome), false)] else []) + sent
         == log + ExecutionEvents(h, key, f) + sent
  {
  }

  lemma RestOfClaim(lib: Library, claimed: System, h: nat, f: Fates)
    requires h in claimed.handlers && claimed.handlers[h].phase.Accepted?
    ensures var key, reply := claimed.handlers[h].key, FreshReply(f.outcome);
            var t := Rest(lib, claimed, h, f);
            && t.up == claimed.up && t.handlers == claimed.handlers - {h}
            && t.rows == (if f.stored then Complete(claimed.rows, key.id, Kept(reply, false), f.finishedAt)
                          else claimed.rows)
            && t.log == claimed.log + ExecutionEvents(h, key, f)
                        + if f.stored && f.taken then [Sent(h, key, reply, false)] else []
  {
    var key := claimed.handlers[h].key;
    ExecutionAdvances(lib, claimed, h, f.outcome);
    NewHandlerFinishes(lib, Executed(claimed, h, f.outcome), h, f);
    EventsJoin(claimed.log, h, key, f,
               if f.stored && f.taken then [Sent(h, key, FreshReply(f.outcome), false)] else []);
    assert Executed(claimed, h, f.outcome).handlers - {h} == claimed.handlers - {h};
  }

  lemma ClaimCarriesEffect(lib: Library, s: System, claimed: System, r: Request, key: Key, f: Fates)
    requires s.up && s.nextId !in s.handlers
    requires claimed.handlers == s.handlers[s.nextId := Handler(r, key, Accepted)]
    requires claimed.up && claimed.log == s.log + [Claimed(s.nextId, key)]
    ensures var reply := FreshReply(f.outcome);
            Carried(s, Rest(lib, claimed, s.nextId, f), key,
                    if f.stored then Complete(claimed.rows, key.id, Kept(reply, false), f.finishedAt) else claimed.rows,
                    if f.stored then Some(reply) else None, f.taken)
  {
    var h := s.nextId;
    RestOfClaim(lib, claimed, h, f);
    assert claimed.handlers - {h} == s.handlers;
    var events := ExecutionEvents(h, key, f);
    assert claimed.log + events == s.log + ([Claimed(h, key)] + events);
    LogTells(s, Rest(lib, claimed, h, f), key, [Claimed(h, key)] + events,
             if f.stored then Some(FreshReply(f.outcome)) else None, false, f.taken);
  }

  lemma ReplayCarriesEffect(lib: Library, s: System, decided: System, r: Request, key: Key, reply: Reply, f: Fates)
    requires s.up && s.nextId !in s.handlers
    requires decided.handlers == s.handlers[s.nextId := Handler(r, key, Replying(reply, true))]
    requires decided.up && decided.log == s.log + [Decided(s.nextId, key, reply, true)]
    ensures Carried(s, Rest(lib, decided, s.nextId, f), key, decided.rows, Some(reply), f.taken)
  {
    ReplyLeaves(lib, decided, s.nextId, f.taken);
    assert decided.handlers - {s.nextId} == s.handlers;
    LogTells(s, Rest(lib, decided, s.nextId, f), key, [Decided(s.nextId, key, reply, true)], Some(reply), true,
             f.taken);
  }

  lemma RestCarriesEffect(lib: Library, s: System, r: Request, key: Key, resourceKey: Option<string>, f: Fates)
    requires s.up && HandlersKnown(s)
    ensures var t := Rest(lib, AfterDeliver(s, r, key, resourceKey, f.begunAt, f.begin), s.nextId, f);
            var (rows, reply) := KeyEffect(s.rows, key, resourceKey, f);
            Carried(s, t, key, rows, reply, f.taken)
  {
    var begun := AfterDeliver(s, r, key, resourceKey, f.begunAt, f.begin);
    var answer := Begin(s.rows, key, resourceKey, f.begunAt, f.begin).1;
    if answer.Ok? && answer.value.New? {
      ClaimCarriesEffect(lib, s, begun, r, key, f);
    } else if answer.Ok? {
      ReplayCarriesEffect(lib, s, begun, r, key, ReplyTo(answer.value), f);
    }
  }

  /**
   * Run alone, a handler takes the step system from table to table exactly as the sequential code does, and the
   * reply that the code enqueues is the one that the step system logs as sent.
   */
  lemma HandlerIsASchedule(lib: Library, s: System, r: Request, f: Fates)
    requires s.up && HandlersKnown(s)
    ensures var (rows, reply) := CommandEffect(lib, s.rows, r, f);
            Carried(s, Run(lib, s, Script(r, s.nextId, f)), RequestKey(lib, r), rows, reply, f.taken)
  {
    ScriptRuns(lib, s, r, f);
    RestCarriesEffect(lib, s, r, RequestKey(lib, r), ExtractResourceKey(lib, r.payloadJson), f);
  }
}
