/**
 * The sequence numbers of one control-stream session. The session task and the heartbeat task share one atomic
 * counter and one channel; taking a number and enqueueing the frame that carries it are separate steps.
 */
module SessionSequence {

  datatype Producer = Session | Heartbeat

  /** What a frame is: the session's register frame, any later frame of the session task, or a heartbeat. */
  datatype Kind = Register | Answer | Beat

  /** A stamped frame: who stamped it, with which number, and what it is. */
  datatype Entry = Entry(producer: Producer, number: nat, kind: Kind)

  /** `opening`: the session task has still to build its register frame. */
  datatype State = State(
    counter: nat,
    live: set<Producer>,
    opening: bool,
    spawned: bool,
    held: map<Producer, Entry>,
    sent: seq<Entry>,
    lost: set<nat>)

  datatype Action =
    | Stamp(p: Producer)
    | Enqueue(p: Producer)
    | SendFails(p: Producer)
    | SpawnHeartbeat
    | Stop(p: Producer)

  /** `run_session` starts the counter at 1 and is the only producer until the stream is open. */
  const START := State(1, {Session}, true, false, map[], [], {})

  /** The frame that a producer builds next, by its place in its own code. */
  function Stamped(s: State, p: Producer): Entry {
    Entry(p, s.counter, if p == Heartbeat then Beat else if s.opening then Register else Answer)
  }

  /** The frame in a producer's hands is gone and its number with it. */
  function Dropped(s: State, p: Producer): State
    requires p in s.held
  {
    s.(held := s.held - {p}, lost := s.lost + {s.held[p].number})
  }

  /** The producer ends, by itself or aborted; a number it has taken is never sent. */
  function Ended(s: State, p: Producer): State {
    var t := s.(live := s.live - {p});
    if p in s.held then Dropped(t, p) else t
  }

  function Next(s: State, a: Action): State {
    match a
    case Stamp(p) =>
      if p in s.live && p !in s.held then
        s.(held := s.held[p := Stamped(s, p)], counter := s.counter + 1, opening := s.opening && p != Session)
      else s
    case Enqueue(p) =>
      if p in s.held then s.(sent := s.sent + [s.held[p]], held := s.held - {p}) else s
    case SendFails(p) =>
      // A failed register frame ends the session, a failed heartbeat ends the heartbeat; the inventory is retried.
      if p !in s.held then s
      else if p == Heartbeat || s.held[p].kind.Register? then Ended(s, p)
      else Dropped(s, p)
    case SpawnHeartbeat =>
      if Session in s.live && Session !in s.held && !s.opening && !s.spawned then
        s.(live := s.live + {Heartbeat}, spawned := true)
      else s
    // The heartbeat is stopped by an abort or by itself; the session may end without aborting it.
    case Stop(p) => Ended(s, p)
  }

  function Run(s: State, actions: seq<Action>): State
    decreases |actions|
  {
    if actions == [] then s else Run(Next(s, actions[0]), actions[1..])
  }

  function SentNumbers(s: State): set<nat> {
    set e | e in s.sent :: e.number
  }

  function HeldNumbers(s: State): set<nat> {
    set p | p in s.held :: s.held[p].number
  }

  /** Every number handed out is in exactly one place: in the channel, in a live producer's hands, or lost. */
  ghost predicate Conserved(s: State) {
    && (forall n: nat :: n in SentNumbers(s) || n in HeldNumbers(s) || n in s.lost <==> 1 <= n < s.counter)
    && SentNumbers(s) !! HeldNumbers(s) !! s.lost
    && s.held.Keys <= s.live
    && (forall p :: p in s.held ==> s.held[p].producer == p)
    && (Session in s.held && Heartbeat in s.held ==> s.held[Session].number != s.held[Heartbeat].number)
  }

  /** No number is sent twice, and each producer's numbers rise. */
  ghost predicate Ordered(s: State) {
    && (forall i, j :: 0 <= i < j < |s.sent| ==>
          && s.sent[i].number != s.sent[j].number
          && (s.sent[i].producer == s.sent[j].producer ==> s.sent[i].number < s.sent[j].number))
    && (forall e :: e in s.sent ==>
          e.number < s.counter && (e.producer in s.held ==> e.number < s.held[e.producer].number))
    && (forall p :: p in s.held ==> s.held[p].number < s.counter)
  }

  /** The session's register frame is the first one stamped and the first one sent, and the only one of its kind. */
  ghost predicate RegisterFirst(s: State) {
    && s.counter >= 1
    && (s.sent == [] ==> !s.spawned && Heartbeat !in s.live && Heartbeat !in s.held)
    && (s.opening ==> s.counter == 1 && s.sent == [] && s.held == map[])
    && (!s.opening && s.sent == [] && Session in s.live ==>
          Session in s.held && s.held[Session] == Entry(Session, 1, Register))
    && (s.sent != [] ==> s.sent[0] == Entry(Session, 1, Register))
    && (forall i :: 1 <= i < |s.sent| ==> !s.sent[i].kind.Register?)
    && (s.sent != [] ==> forall p :: p in s.held ==> !s.held[p].kind.Register?)
  }

  ghost predicate Inv(s: State) {
    Conserved(s) && Ordered(s) && RegisterFirst(s)
  }

  lemma SentAfterEnqueue(s: State, p: Producer)
    requires p in s.held
    ensures SentNumbers(Next(s, Enqueue(p))) == SentNumbers(s) + {s.held[p].number}
  {
    var t := Next(s, Enqueue(p));
    assert s.held[p] in t.sent;
    forall n | n in SentNumbers(s) + {s.held[p].number} ensures n in SentNumbers(t) {
      if n != s.held[p].number {
        var x :| x in s.sent && x.number == n;
        assert x in t.sent;
      }
    }
  }

  lemma HeldAfterRemoval(s: State, p: Producer, t: State)
    requires p in s.held && t.held == s.held - {p}
    requires Session in s.held && Heartbeat in s.held ==> s.held[Session].number != s.held[Heartbeat].number
    ensures HeldNumbers(t) == HeldNumbers(s) - {s.held[p].number}
  {
    forall n | n in HeldNumbers(s) - {s.held[p].number} ensures n in HeldNumbers(t) {
      var q :| q in s.held && s.held[q].number == n;
      assert q in t.held;
    }
    assert forall q :: q in t.held ==> q in s.held && q != p;
    assert forall q :: q in t.held ==> (p == Session && q == Heartbeat) || (p == Heartbeat && q == Session);
  }

  lemma HeldAfterStamp(s: State, p: Producer)
    requires p in s.live && p !in s.held
    ensures HeldNumbers(Next(s, Stamp(p))) == HeldNumbers(s) + {s.counter}
  {
    var t := Next(s, Stamp(p));
    assert p in t.held && t.held[p].number == s.counter;
    forall n | n in HeldNumbers(s) ensures n in HeldNumbers(t) {
      var q :| q in s.held && s.held[q].number == n;
      assert q in t.held && t.held[q].number == n;
    }
  }

  /** Held numbers are distinct, none of them has been sent, and all numbers are below the counter. */
  ghost predicate Apart(s: State) {
    && (forall p, q :: p in s.held && q in s.held && p != q ==> s.held[p].number != s.held[q].number)
    && (forall p :: p in s.held ==> s.held[p].number < s.counter && s.held[p].number !in SentNumbers(s))
    && (forall e :: e in s.sent ==> e.number < s.counter)
  }

  lemma ConservedIsApart(s: State)
    requires Conserved(s) && Ordered(s)
    ensures Apart(s)
  {
    forall p | p in s.held ensures s.held[p].number !in SentNumbers(s) {
      assert s.held[p].number in HeldNumbers(s);
    }
    forall p, q | p in s.held && q in s.held && p != q ensures s.held[p].number != s.held[q].number {
      assert (p == Session && q == Heartbeat) || (p == Heartbeat && q == Session);
    }
  }

  lemma EndedKeepsInv(s: State, p: Producer)
    requires Inv(s) && (s.sent == [] ==> p == Session || p !in s.held)
    ensures Inv(Ended(s, p))
  {
    var t := Ended(s, p);
    assert SentNumbers(t) == SentNumbers(s);
    if p in s.held {
      HeldAfterRemoval(s, p, t);
      assert s.held[p].number in HeldNumbers(s);
    } else {
      assert t.held == s.held;
    }
  }

  lemma StampKeepsInv(s: State, p: Producer)
    requires Inv(s) && p in s.live && p !in s.held
    ensures Inv(Next(s, Stamp(p)))
  {
    HeldAfterStamp(s, p);
    assert SentNumbers(Next(s, Stamp(p))) == SentNumbers(s);
  }

  lemma EnqueueKeepsConserved(s: State, p: Producer)
    requires Conserved(s) && p in s.held
    ensures Conserved(Next(s, Enqueue(p)))
  {
    assert s.held[p].number in HeldNumbers(s);
    SentAfterEnqueue(s, p);
    HeldAfterRemoval(s, p, Next(s, Enqueue(p)));
  }

  lemma EnqueueKeepsOrdered(s: State, p: Producer)
    requires Conserved(s) && Ordered(s) && p in s.held
    ensures Ordered(Next(s, Enqueue(p)))
  {
    ConservedIsApart(s);
    var t := Next(s, Enqueue(p));
    forall e | e in s.sent ensures e.number != s.held[p].number {
      assert e.number in SentNumbers(s);
    }
    assert forall e :: e in t.sent ==> e in s.sent || e == s.held[p];
  }

  lemma EnqueueKeepsRegisterFirst(s: State, p: Producer)
    requires RegisterFirst(s) && p in s.held && p in s.live && s.held[p].producer == p
    ensures RegisterFirst(Next(s, Enqueue(p)))
  {
    var t := Next(s, Enqueue(p));
    if s.sent == [] {
      assert p == Session && forall q :: q in t.held ==> q == Heartbeat;
    }
  }

  lemma EnqueueKeepsInv(s: State, p: Producer)
    requires Inv(s) && p in s.held
    ensures Inv(Next(s, Enqueue(p)))
  {
    EnqueueKeepsConserved(s, p);
    EnqueueKeepsOrdered(s, p);
    EnqueueKeepsRegisterFirst(s, p);
  }

  lemma RetryKeepsInv(s: State, p: Producer)
    requires Inv(s) && p in s.held && s.sent != []
    ensures Inv(Dropped(s, p))
  {
    var t := Dropped(s, p);
    assert s.held[p].number in HeldNumbers(s);
    HeldAfterRemoval(s, p, t);
    assert SentNumbers(t) == SentNumbers(s);
  }

  lemma NextKeepsInv(s: State, a: Action)
    requires Inv(s)
    ensures Inv(Next(s, a))
  {
    match a
    case Stamp(p) =>
      if p in s.live && p !in s.held {
        StampKeepsInv(s, p);
      }
    case Enqueue(p) =>
      if p in s.held {
        EnqueueKeepsInv(s, p);
      }
    case SendFails(p) =>
      if p in s.held {
        if p == Heartbeat || s.held[p].kind.Register? {
          EndedKeepsInv(s, p);
        } else {
          RetryKeepsInv(s, p);
        }
      }
    case SpawnHeartbeat =>
      var t := Next(s, a);
      assert SentNumbers(t) == SentNumbers(s) && HeldNumbers(t) == HeldNumbers(s);
    case Stop(p) =>
      EndedKeepsInv(s, p);
  }

  lemma {:induction false} RunKeepsInv(s: State, actions: seq<Action>)
    requires Inv(s)
    ensures Inv(Run(s, actions))
    decreases |actions|
  {
    if actions == [] {
    } else {
      NextKeepsInv(s, actions[0]);
      RunKeepsInv(Next(s, actions[0]), actions[1..]);
    }
  }

  /**
   * In every interleaving of the two producers with failing sends and aborts: the numbers handed out are the
   * disjoint union of sent, held and lost; sent numbers are distinct, rise per producer, and start with Register 1.
   */
  lemma NumbersAreConserved(actions: seq<Action>)
    ensures var s := Run(START, actions);
            && Conserved(s) && Ordered(s)
            && |s.held| <= |s.live|
            && (s.sent != [] ==> s.sent[0] == Entry(Session, 1, Register))
            && forall i :: 1 <= i < |s.sent| ==> !s.sent[i].kind.Register? && s.sent[i].number > 1
  {
    assert SentNumbers(START) == {} && HeldNumbers(START) == {};
    RunKeepsInv(START, actions);
    var s := Run(START, actions);
    assert |s.held| == |s.held.Keys|;
    HeldWithinLive(s.held.Keys, s.live);
    forall i | 1 <= i < |s.sent| ensures s.sent[i].number > 1 {
      assert s.sent[i].number in SentNumbers(s);
      assert s.sent[0].number != s.sent[i].number;
    }
  }

  lemma {:induction false} HeldWithinLive(a: set<Producer>, b: set<Producer>)
    requires a <= b
    ensures |a| <= |b|
  {
    if a == {} {
    } else {
      var p :| p in a;
      HeldWithinLive(a - {p}, b - {p});
    }
  }

  // ----- when the channel is sorted -----

  ghost predicate Sorted(sent: seq<Entry>) {
    forall i, j :: 0 <= i < j < |sent| ==> sent[i].number < sent[j].number
  }

  /** The numbers that the action overtakes: taken by another producer, smaller, and still in its hands. */
  function Overtakes(s: State, a: Action): set<nat> {
    if a.Enqueue? && a.p in s.held then
      set q | q in s.held && s.held[q].number < s.held[a.p].number :: s.held[q].number
    else {}
  }

  /** The numbers overtaken in the course of a run. */
  function Overtaken(s: State, actions: seq<Action>): set<nat>
    decreases |actions|
  {
    if actions == [] then {} else Overtakes(s, actions[0]) + Overtaken(Next(s, actions[0]), actions[1..])
  }

  /** A frame still held comes too late exactly when its number has been overtaken. */
  ghost predicate LateKnown(s: State, overtaken: set<nat>) {
    forall p :: p in s.held ==>
      (s.held[p].number in overtaken <==> exists e :: e in s.sent && e.number > s.held[p].number)
  }

  /** What the numbers overtaken so far tell about the order of the channel. */
  ghost predicate OrderTold(s: State, overtaken: set<nat>) {
    && (forall n :: n in overtaken ==> n < s.counter)
    && LateKnown(s, overtaken)
    && (Sorted(s.sent) <==> overtaken !! SentNumbers(s))
  }

  lemma SortedOneMore(sent: seq<Entry>, e: Entry)
    ensures Sorted(sent + [e]) <==> Sorted(sent) && forall x :: x in sent ==> x.number < e.number
  {
    var longer := sent + [e];
    if Sorted(longer) {
      forall i, j | 0 <= i < j < |sent| ensures sent[i].number < sent[j].number {
        assert longer[i].number < longer[j].number;
      }
      forall i | 0 <= i < |sent| ensures sent[i].number < e.number {
        assert longer[i].number < longer[|sent|].number;
      }
    }
  }

  /** A frame still held is late exactly when a larger number has been sent. */
  lemma LateAfterEnqueue(s: State, p: Producer, q: Producer, overtaken: set<nat>)
    requires p in s.held && q in s.held && q != p && s.held[q].number != s.held[p].number
    requires s.held[q].number in overtaken <==> exists e :: e in s.sent && e.number > s.held[q].number
    ensures s.held[q].number in overtaken + Overtakes(s, Enqueue(p)) <==>
              exists e :: e in s.sent + [s.held[p]] && e.number > s.held[q].number
  {
    var longer := s.sent + [s.held[p]];
    assert s.held[p] in longer && forall e :: e in longer <==> e in s.sent || e == s.held[p];
  }

  lemma EnqueueKeepsLateKnown(s: State, p: Producer, overtaken: set<nat>)
    requires Apart(s) && LateKnown(s, overtaken) && p in s.held
    ensures LateKnown(Next(s, Enqueue(p)), overtaken + Overtakes(s, Enqueue(p)))
  {
    forall q | q in s.held && q != p
      ensures s.held[q].number in overtaken + Overtakes(s, Enqueue(p)) <==>
                exists e :: e in s.sent + [s.held[p]] && e.number > s.held[q].number
    {
      LateAfterEnqueue(s, p, q, overtaken);
    }
  }

  /** Enqueueing keeps the channel sorted exactly if it was, and the number has not been overtaken before. */
  lemma EnqueueKeepsSorted(s: State, p: Producer, overtaken: set<nat>)
    requires Apart(s) && LateKnown(s, overtaken) && p in s.held
    ensures Sorted(Next(s, Enqueue(p)).sent) <==> Sorted(s.sent) && s.held[p].number !in overtaken
  {
    SortedOneMore(s.sent, s.held[p]);
    forall x | x in s.sent ensures x.number != s.held[p].number {
      assert x.number in SentNumbers(s);
    }
  }

  lemma EnqueueTellsOrder(s: State, p: Producer, overtaken: set<nat>)
    requires Apart(s) && OrderTold(s, overtaken) && p in s.held
    ensures OrderTold(Next(s, Enqueue(p)), overtaken + Overtakes(s, Enqueue(p)))
  {
    EnqueueKeepsLateKnown(s, p, overtaken);
    EnqueueKeepsSorted(s, p, overtaken);
    SentAfterEnqueue(s, p);
    assert s.held[p].number !in Overtakes(s, Enqueue(p));
    assert Overtakes(s, Enqueue(p)) !! SentNumbers(s);
  }

  /** A new number is larger than all that have been sent. */
  lemma StampTellsOrder(s: State, p: Producer, overtaken: set<nat>)
    requires Apart(s) && OrderTold(s, overtaken) && p in s.live && p !in s.held
    ensures OrderTold(Next(s, Stamp(p)), overtaken)
  {
    var t := Next(s, Stamp(p));
    assert SentNumbers(t) == SentNumbers(s);
    assert t.held[p].number == s.counter;
    assert forall q :: q in s.held ==> t.held[q] == s.held[q];
  }

  lemma OtherStepTellsOrder(s: State, t: State, overtaken: set<nat>)
    requires OrderTold(s, overtaken)
    requires t.sent == s.sent && t.counter == s.counter
    requires forall p :: p in t.held ==> p in s.held && t.held[p] == s.held[p]
    ensures OrderTold(t, overtaken)
  {
    assert SentNumbers(t) == SentNumbers(s);
  }

  /** All steps but stamping and enqueueing leave the channel alone and put nothing into anybody's hands. */
  lemma OtherStepsAddNothing(s: State, a: Action)
    requires !(a.Enqueue? && a.p in s.held) && !(a.Stamp? && a.p in s.live && a.p !in s.held)
    ensures var t := Next(s, a);
            && t.sent == s.sent && t.counter == s.counter
            && forall p :: p in t.held ==> p in s.held && t.held[p] == s.held[p]
  {
  }

  lemma NextTellsOrder(s: State, a: Action, overtaken: set<nat>)
    requires Apart(s) && OrderTold(s, overtaken)
    ensures OrderTold(Next(s, a), overtaken + Overtakes(s, a))
  {
    if a.Enqueue? && a.p in s.held {
      EnqueueTellsOrder(s, a.p, overtaken);
    } else if a.Stamp? && a.p in s.live && a.p !in s.held {
      StampTellsOrder(s, a.p, overtaken);
      assert overtaken + Overtakes(s, a) == overtaken;
    } else {
      OtherStepsAddNothing(s, a);
      OtherStepTellsOrder(s, Next(s, a), overtaken);
      assert overtaken + Overtakes(s, a) == overtaken;
    }
  }

  lemma StepTellsOrder(s: State, a: Action, overtaken: set<nat>)
    requires Inv(s) && OrderTold(s, overtaken)
    ensures Inv(Next(s, a)) && OrderTold(Next(s, a), overtaken + Overtakes(s, a))
  {
    NextKeepsInv(s, a);
    ConservedIsApart(s);
    NextTellsOrder(s, a, overtaken);
  }

  lemma OvertakenUnfolds(s: State, actions: seq<Action>, overtaken: set<nat>)
    requires actions != []
    ensures overtaken + Overtakes(s, actions[0]) + Overtaken(Next(s, actions[0]), actions[1..])
         == overtaken + Overtaken(s, actions)
  {
  }

  lemma {:induction false} RunTellsOrder(s: State, actions: seq<Action>, overtaken: set<nat>)
    requires Inv(s) && OrderTold(s, overtaken)
    ensures OrderTold(Run(s, actions), overtaken + Overtaken(s, actions))
    decreases |actions|
  {
    if actions == [] {
      assert overtaken + Overtaken(s, actions) == overtaken;
    } else {
      var t, more := Next(s, actions[0]), Overtakes(s, actions[0]);
      StepTellsOrder(s, actions[0], overtaken);
      RunTellsOrder(t, actions[1..], overtaken + more);
      OvertakenUnfolds(s, actions, overtaken);
    }
  }

  /**
   * The channel is sorted by sequence number if and only if every number overtaken in the run stays out of it; in
   * particular if no frame is enqueued while another producer holds a smaller number.
   */
  lemma SortedIffOvertakenStayOut(actions: seq<Action>)
    ensures Sorted(Run(START, actions).sent) <==> Overtaken(START, actions) !! SentNumbers(Run(START, actions))
    ensures Overtaken(START, actions) == {} ==> Sorted(Run(START, actions).sent)
  {
    assert SentNumbers(START) == {} && HeldNumbers(START) == {};
    RunTellsOrder(START, actions, {});
    assert {} + Overtaken(START, actions) == Overtaken(START, actions);
  }

  /** A run in which it is not: a heartbeat overtakes a number that the session task has taken. */
  lemma ChannelNeedNotBeSorted() returns (actions: seq<Action>)
    ensures Run(START, actions).sent
         == [Entry(Session, 1, Register), Entry(Heartbeat, 3, Beat), Entry(Session, 2, Answer)]
    ensures !Sorted(Run(START, actions).sent)
  {
    var open := State(2, {Session, Heartbeat}, false, true, map[], [Entry(Session, 1, Register)], {});
    var race := [Stamp(Session)] + ([Stamp(Heartbeat)] + ([Enqueue(Heartbeat)] + ([Enqueue(Session)] + [])));
    actions := [Stamp(Session)] + ([Enqueue(Session)] + ([SpawnHeartbeat] + race));
    Opens(race);
    Races(open);
    var sent := Run(START, actions).sent;
    assert sent[1].number > sent[2].number;
  }

  lemma RunStep(s: State, a: Action, rest: seq<Action>)
    ensures Run(s, [a] + rest) == Run(Next(s, a), rest)
  {
    assert ([a] + rest)[1..] == rest;
  }

  lemma Opens(rest: seq<Action>)
    ensures Run(START, [Stamp(Session)] + ([Enqueue(Session)] + ([SpawnHeartbeat] + rest)))
         == Run(State(2, {Session, Heartbeat}, false, true, map[], [Entry(Session, 1, Register)], {}), rest)
  {
    var s1 := Next(START, Stamp(Session));
    var s2 := Next(s1, Enqueue(Session));
    RunStep(START, Stamp(Session), [Enqueue(Session)] + ([SpawnHeartbeat] + rest));
    RunStep(s1, Enqueue(Session), [SpawnHeartbeat] + rest);
    RunStep(s2, SpawnHeartbeat, rest);
    assert s2.sent == [Entry(Session, 1, Register)] && s2.held == map[];
    assert Next(s2, SpawnHeartbeat).live == {Session, Heartbeat};
  }

  lemma Races(s: State)
    requires s.live == {Session, Heartbeat} && s.held == map[] && !s.opening
    ensures Run(s, [Stamp(Session)] + ([Stamp(Heartbeat)] + ([Enqueue(Heartbeat)] + ([Enqueue(Session)] + [])))).sent
         == s.sent + [Entry(Heartbeat, s.counter + 1, Beat), Entry(Session, s.counter, Answer)]
  {
    var s1 := Next(s, Stamp(Session));
    var s2 := Next(s1, Stamp(Heartbeat));
    var s3 := Next(s2, Enqueue(Heartbeat));
    RunStep(s, Stamp(Session), [Stamp(Heartbeat)] + ([Enqueue(Heartbeat)] + ([Enqueue(Session)] + [])));
    RunStep(s1, Stamp(Heartbeat), [Enqueue(Heartbeat)] + ([Enqueue(Session)] + []));
    RunStep(s2, Enqueue(Heartbeat), [Enqueue(Session)] + []);
    RunStep(s3, Enqueue(Session), []);
  }
}
