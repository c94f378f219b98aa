/** Runtime assignments and the selector that walks through their candidates. Durations are whole milliseconds. */
module Registry {
  import opened Results
  import opened Text

  datatype Config = Config(baseBackoff: nat, maxBackoff: nat)

  /** What `AgentConfig::validate` demands of the two backoffs. */
  predicate ValidConfig(c: Config) {
    0 < c.baseBackoff <= c.maxBackoff
  }

  /** The control plane's answer: the addresses of the candidates, the preferred one and the refresh period. */
  datatype Response = Response(
    preferredDpId: string,
    preferredDpAddr: string,
    candidateAddrs: seq<string>,
    epoch: int,
    refreshAfterSec: int)

  datatype Assignment = Assignment(
    preferredDpId: string,
    preferredTarget: string,
    candidates: seq<string>,
    epoch: int,
    refreshAfter: nat,
    expiresAt: int)

  function Max(a: int, b: int): int {
    if a < b then b else a
  }

  function Min(a: nat, b: nat): nat {
    if a < b then a else b
  }

  /** The non-blank addresses, trimmed, in order. */
  function Usable(addrs: seq<string>): seq<string> {
    if addrs == [] then []
    else
      var last := Trim(addrs[|addrs| - 1]);
      Usable(addrs[..|addrs| - 1]) + if last == "" then [] else [last]
  }

  function Candidates(r: Response): seq<string> {
    var listed := Usable(r.candidateAddrs);
    if listed == [] && Trim(r.preferredDpAddr) != "" then [Trim(r.preferredDpAddr)] else listed
  }

  function LifetimeMs(r: Response): int {
    Max(r.refreshAfterSec, 5) * 2 * 1000
  }

  /** The assignment that a successful resolve at time `now` yields. */
  function Resolved(r: Response, now: int): Assignment
    requires Candidates(r) != []
  {
    Assignment(r.preferredDpId, r.preferredDpAddr, Candidates(r), r.epoch, Max(r.refreshAfterSec, 5),
               now + LifetimeMs(r))
  }

  /** `from` lists, in order and without gaps, the places of the non-blank addresses. */
  ghost predicate DrawnFrom(candidates: seq<string>, addrs: seq<string>, from: seq<nat>) {
    && |from| == |candidates|
    && (forall k :: 0 <= k < |from| ==>
          from[k] < |addrs| && candidates[k] == Trim(addrs[from[k]]) && candidates[k] != "")
    && (forall k, l :: 0 <= k < l < |from| ==> from[k] < from[l])
    && (forall i :: 0 <= i < |addrs| && i !in from ==> Trim(addrs[i]) == "")
  }

  lemma DrawnFromOneMore(candidates: seq<string>, addrs: seq<string>, from: seq<nat>, addr: string, trimmed: string)
    requires DrawnFrom(candidates, addrs, from) && trimmed == Trim(addr)
    ensures DrawnFrom(candidates + if trimmed == "" then [] else [trimmed], addrs + [addr],
                      from + if trimmed == "" then [] else [|addrs|])
  {
    var longer := from + if trimmed == "" then [] else [|addrs|];
    assert forall i :: i in from ==> i in longer;
    assert trimmed != "" ==> longer[|from|] == |addrs|;
  }

  /** The usable addresses are all the non-blank ones, trimmed, each once and in the response's order. */
  lemma {:induction false} UsableIsDrawn(addrs: seq<string>) returns (from: seq<nat>)
    ensures DrawnFrom(Usable(addrs), addrs, from)
  {
    if addrs == [] {
      from := [];
    } else {
      var n := |addrs| - 1;
      var trimmed := Trim(addrs[n]);
      var init := UsableIsDrawn(addrs[..n]);
      DrawnFromOneMore(Usable(addrs[..n]), addrs[..n], init, addrs[n], trimmed);
      assert addrs[..n] + [addrs[n]] == addrs;
      from := init + if trimmed == "" then [] else [n];
    }
  }

  lemma UsableIffNotAllBlank(addrs: seq<string>)
    ensures Usable(addrs) == [] <==> forall i :: 0 <= i < |addrs| ==> Trim(addrs[i]) == ""
  {
    var from := UsableIsDrawn(addrs);
    if from != [] {
      assert Trim(addrs[from[0]]) != "";
    }
  }

  /** A response without a single non-blank address is the only one that is refused. */
  lemma RefusedIffAllBlank(r: Response)
    ensures Candidates(r) == [] <==>
              && Trim(r.preferredDpAddr) == ""
              && forall i :: 0 <= i < |r.candidateAddrs| ==> Trim(r.candidateAddrs[i]) == ""
    ensures forall k :: 0 <= k < |Candidates(r)| ==> Candidates(r)[k] != "" && Tidy(Candidates(r)[k])
  {
    var from := UsableIsDrawn(r.candidateAddrs);
    UsableIffNotAllBlank(r.candidateAddrs);
  }

  /**
   * The assignment that a response yields at a moment: its names and epoch, its refresh period but at least five
   * seconds, an expiry after twice that, and its non-blank addresses in order, or else its preferred one.
   */
  ghost predicate MadeFrom(a: Assignment, r: Response, at: int) {
    && a.preferredDpId == r.preferredDpId && a.preferredTarget == r.preferredDpAddr && a.epoch == r.epoch
    && a.refreshAfter == (if r.refreshAfterSec < 5 then 5 else r.refreshAfterSec)
    && a.expiresAt == at + 2000 * a.refreshAfter
    && if forall i :: 0 <= i < |r.candidateAddrs| ==> Trim(r.candidateAddrs[i]) == ""
       then a.candidates == [Trim(r.preferredDpAddr)] && Trim(r.preferredDpAddr) != ""
       else exists from: seq<nat> :: DrawnFrom(a.candidates, r.candidateAddrs, from)
  }

  lemma ResolvedIsMadeFrom(r: Response, now: int)
    requires Candidates(r) != []
    ensures MadeFrom(Resolved(r, now), r, now)
  {
    var from := UsableIsDrawn(r.candidateAddrs);
    UsableIffNotAllBlank(r.candidateAddrs);
  }

  /** The loop of `resolve_assignment` over the listed candidates. */
  method CollectUsable(addrs: seq<string>) returns (candidates: seq<string>)
    ensures candidates == Usable(addrs)
  {
    candidates := [];
    for i := 0 to |addrs|
      invariant candidates == Usable(addrs[..i])
    {
      assert addrs[..i + 1][..i] == addrs[..i];
      var trimmed := Trim(addrs[i]);
      if trimmed == "" {
        continue;
      }
      candidates := candidates + [trimmed];
    }
    assert addrs[..|addrs|] == addrs;
  }

  /**
   * `resolve_assignment` after the call has been answered. It fails exactly if all addresses are blank. The
   * assignment expires two refresh periods after now, a period being at least five seconds; its candidates are the
   * non-blank listed addresses, trimmed and in order, or the preferred one if there are none.
   */
  method ResolveAssignment(response: Response, now: int) returns (r: Result<Assignment>)
    ensures r.Ok? <==> Candidates(response) != []
    ensures r.Ok? ==> r.value == Resolved(response, now)
    ensures r.Ok? <==> Trim(response.preferredDpAddr) != ""
                       || exists i :: 0 <= i < |response.candidateAddrs| && Trim(response.candidateAddrs[i]) != ""
    ensures r.Ok? ==>
      var period := if response.refreshAfterSec < 5 then 5 else response.refreshAfterSec;
      && r.value.refreshAfter == period && r.value.expiresAt == now + 2000 * period
      && r.value.preferredDpId == response.preferredDpId && r.value.preferredTarget == response.preferredDpAddr
      && r.value.epoch == response.epoch
    ensures r.Ok? ==>
      if forall i :: 0 <= i < |response.candidateAddrs| ==> Trim(response.candidateAddrs[i]) == ""
      then r.value.candidates == [Trim(response.preferredDpAddr)]
      else exists from: seq<nat> :: DrawnFrom(r.value.candidates, response.candidateAddrs, from)
  {
    RefusedIffAllBlank(response);
    if Candidates(response) != [] {
      ResolvedIsMadeFrom(response, now);
    }
    var candidates := CollectUsable(response.candidateAddrs);
    if candidates == [] && Trim(response.preferredDpAddr) != "" {
      candidates := candidates + [Trim(response.preferredDpAddr)];
    }
    if candidates == [] {
      return Err("runtime assignment returned no dataplane candidates");
    }
    var refresh := Max(response.refreshAfterSec, 5);
    return Ok(Assignment(response.preferredDpId, response.preferredDpAddr, candidates, response.epoch, refresh,
                         now + refresh * 2 * 1000));
  }

  // ----- backoff -----

  function Pow2(k: nat): nat {
    if k == 0 then 1 else 2 * Pow2(k - 1)
  }

  /** `base` doubled `k` times, each time capped. */
  function Backoff(c: Config, k: nat): nat {
    if k == 0 then c.baseBackoff else Min(Backoff(c, k - 1) * 2, c.maxBackoff)
  }

  lemma Doubling(a: nat, b: nat)
    ensures a * (2 * b) == 2 * (a * b)
  {
  }

  /** Capping at every doubling is the same as doubling freely and capping once. */
  lemma {:induction false} BackoffClosedForm(c: Config, k: nat)
    requires ValidConfig(c)
    ensures Backoff(c, k) == Min(c.baseBackoff * Pow2(k), c.maxBackoff)
    ensures 0 < Backoff(c, k) <= c.maxBackoff
  {
    if k == 0 {
    } else {
      BackoffClosedForm(c, k - 1);
      Doubling(c.baseBackoff, Pow2(k - 1));
    }
  }

  /** The selector's delay for a clock reading: backoff plus a jitter below one fifth of it. */
  function FailoverDelay(backoff: nat, subsecMillis: nat): nat {
    backoff + subsecMillis % (if backoff / 5 < 1 then 1 else backoff / 5)
  }

  /** The jitter is the clock's milliseconds modulo a fifth of the backoff, or modulo one if that is zero. */
  lemma FailoverDelayBounds(backoff: nat, subsecMillis: nat)
    ensures backoff >= 5 ==> FailoverDelay(backoff, subsecMillis) == backoff + subsecMillis % (backoff / 5)
    ensures backoff < 5 ==> FailoverDelay(backoff, subsecMillis) == backoff
    ensures backoff <= FailoverDelay(backoff, subsecMillis)
    ensures 5 * FailoverDelay(backoff, subsecMillis) <= 6 * backoff
  {
  }

  /** The selector's fields as a value. */
  datatype Selector = Selector(targets: seq<string>, index: nat, backoff: nat)

  /** After the last target there is none; before it, the next one, with the backoff doubled up to the cap. */
  function Advanced(s: Selector, c: Config): Selector {
    if s.targets != [] && s.index + 1 >= |s.targets| then Selector([], s.index + 1, s.backoff)
    else Selector(s.targets, if s.targets == [] then s.index else s.index + 1, Min(s.backoff * 2, c.maxBackoff))
  }

  class RuntimeTargetSelector {
    var targets: seq<string>
    var index: nat
    var backoff: nat
    const config: Config

    constructor (targets: seq<string>, config: Config)
      ensures View() == Selector(targets, 0, config.baseBackoff) && this.config == config
    {
      this.targets := targets;
      index := 0;
      backoff := config.baseBackoff;
      this.config := config;
    }

    function View(): Selector
      reads this
    {
      Selector(targets, index, backoff)
    }

    /** The index stays inside a non-empty list, so its reduction modulo the length does nothing. */
    ghost predicate Valid()
      reads this
    {
      targets != [] ==> index < |targets|
    }

    function Current(): (target: Option<string>)
      requires Valid()
      reads this
      ensures target == if targets == [] then None else Some(targets[index])
    {
      if targets == [] then None else Some(targets[index % |targets|])
    }

    method Advance()
      requires Valid()
      modifies this
      ensures Valid() && View() == Advanced(old(View()), config)
      ensures old(index) + 1 < old(|targets|) ==>
                && targets == old(targets) && index == old(index) + 1
                && backoff == if 2 * old(backoff) < config.maxBackoff then 2 * old(backoff) else config.maxBackoff
      ensures old(index) + 1 >= old(|targets|) ==> targets == []
    {
      if targets != [] {
        index := index + 1;
        if index >= |targets| {
          targets := [];
          return;
        }
      }
      backoff := Min(backoff * 2, config.maxBackoff);
    }

    method ResetBackoff()
      modifies this
      ensures View() == old(View()).(backoff := config.baseBackoff)
    {
      backoff := config.baseBackoff;
    }
  }
}
