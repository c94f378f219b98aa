/** The flags of the gRPC server and the wait for its end. */
module GrpcServer {

  /**
   * The server's flags as a value: whether a one-shot sender is stored, waiting to be taken, how many times a stop
   * signal has been sent, and how many times `run` has begun to serve.
   */
  datatype Flags = Flags(accepting: bool, running: bool, senderStored: bool, signals: nat, serves: nat)

  const NEW_FLAGS := Flags(true, false, false, 0, 0)

  /** `stop_accepting`, `run` up to the moment it serves (a bad address ends it at once), and `run` from there on. */
  datatype Call = Stopping | Serving(addressOk: bool) | Ending

  /** The sender is taken out by the first stop that finds it. */
  function After(f: Flags, call: Call): Flags {
    match call
    case Stopping =>
      f.(accepting := false, senderStored := false, signals := f.signals + if f.senderStored then 1 else 0)
    case Serving(ok) => if ok then f.(running := true, senderStored := true, serves := f.serves + 1) else f
    case Ending => f.(running := false)
  }

  function AfterAll(f: Flags, calls: seq<Call>): Flags
    decreases |calls|
  {
    if calls == [] then f else AfterAll(After(f, calls[0]), calls[1..])
  }

  /** From one start of serving to the next, one signal is sent if a sender is stored and anybody stops the server. */
  lemma {:induction false} EachRunIsSignalledOnce(f: Flags, calls: seq<Call>)
    requires Serving(true) !in calls
    ensures AfterAll(f, calls).signals == f.signals + if f.senderStored && Stopping in calls then 1 else 0
    ensures AfterAll(f, calls).accepting == (f.accepting && Stopping !in calls)
    decreases |calls|
  {
    if calls == [] {
    } else {
      assert forall c :: c in calls <==> c == calls[0] || c in calls[1..];
      EachRunIsSignalledOnce(After(f, calls[0]), calls[1..]);
    }
  }

  /** However the calls are mixed, there are never more signals than runs to be stopped. */
  lemma {:induction false} SignalsNeverExceedRuns(f: Flags, calls: seq<Call>)
    requires f.signals + (if f.senderStored then 1 else 0) <= f.serves
    ensures var g := AfterAll(f, calls); g.signals + (if g.senderStored then 1 else 0) <= g.serves
    decreases |calls|
  {
    if calls == [] {
    } else {
      SignalsNeverExceedRuns(After(f, calls[0]), calls[1..]);
    }
  }

  lemma {:induction false} AfterAllSplits(f: Flags, before: seq<Call>, after: seq<Call>)
    ensures AfterAll(f, before + after) == AfterAll(AfterAll(f, before), after)
    decreases |before|
  {
    if before == [] {
      assert before + after == after;
    } else {
      assert (before + after)[0] == before[0] && (before + after)[1..] == before[1..] + after;
      AfterAllSplits(After(f, before[0]), before[1..], after);
    }
  }

  /** What happens to the flags in the course of one `run`, with the stops that come while it serves. */
  function RunCalls(addressOk: bool, stops: nat): seq<Call> {
    [Serving(addressOk)] + if addressOk then seq(stops, _ => Stopping) + [Ending] else []
  }

  class GrpcServer {
    var accepting: bool
    var running: bool
    var senderStored: bool
    // Counts of what has happened, for the proof; no branch reads them.
    var signals: nat
    var serves: nat

    constructor ()
      ensures View() == NEW_FLAGS
    {
      accepting, running, senderStored, signals, serves := true, false, false, 0, 0;
    }

    function View(): Flags
      reads this
    {
      Flags(accepting, running, senderStored, signals, serves)
    }

    method StopAccepting()
      modifies this
      ensures View() == After(old(View()), Stopping)
    {
      accepting := false;
      if senderStored {
        senderStored := false;
        signals := signals + 1;
      }
    }

    /** `run` up to the moment it serves; a bad address ends it at once. */
    method StartServing(addressOk: bool) returns (serving: bool)
      modifies this
      ensures serving == addressOk && View() == After(old(View()), Serving(addressOk))
    {
      if addressOk {
        senderStored := true;
        running := true;
        serves := serves + 1;
      }
      serving := addressOk;
    }

    /** `run` after serving has ended, cleanly or not. */
    method EndServing()
      modifies this
      ensures View() == After(old(View()), Ending)
    {
      running := false;
    }

    /**
     * `run`: with a bad address it does nothing; else it serves, while others call `stop_accepting` any number of
     * times, and is down in the end. However often it is stopped, it sees one signal at most.
     */
    method Run(addressOk: bool, stops: nat)
      modifies this
      ensures View() == AfterAll(old(View()), RunCalls(addressOk, stops))
      ensures addressOk ==> !running && signals == old(signals) + (if stops > 0 then 1 else 0)
      ensures !addressOk ==> View() == old(View())
    {
      var serving := StartServing(addressOk);
      if !serving {
        return;
      }
      ghost var served := View();
      for i := 0 to stops
        invariant View() == AfterAll(served, seq(i, _ => Stopping))
        invariant i == 0 ==> View() == served
      {
        StopAccepting();
        AfterAllSplits(served, seq(i, _ => Stopping), [Stopping]);
        assert seq(i, _ => Stopping) + [Stopping] == seq(i + 1, _ => Stopping);
      }
      EachRunIsSignalledOnce(served, seq(stops, _ => Stopping));
      assert stops > 0 ==> seq(stops, _ => Stopping)[0] == Stopping;
      EndServing();
      AfterAllSplits(served, seq(stops, _ => Stopping), [Ending]);
      var rest := seq(stops, _ => Stopping) + [Ending];
      assert RunCalls(true, stops)[1..] == rest;
    }

    /**
     * `shutdown`: look at the flag, else wait to be notified and look again, until time is up. `looks` are the
     * values of the flag after each notification in that time. A server that is down already is never waited for.
     */
    method Shutdown(looks: seq<bool>) returns (stopped: bool)
      modifies this
      ensures View() == After(old(View()), Stopping).(running := !stopped)
      ensures stopped <==> !old(running) || false in looks
    {
      StopAccepting();
      var i := 0;
      while running && i < |looks|
        invariant i <= |looks| && View() == After(old(View()), Stopping).(running := running)
        invariant running <==> old(running) && false !in looks[..i]
        decreases |looks| - i
      {
        running := looks[i];
        i := i + 1;
      }
      assert !running || looks[..i] == looks;
      stopped := !running;
    }
  }
}
