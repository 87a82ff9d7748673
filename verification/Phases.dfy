/** The phase machine of a team (internal/types/team.go:20-49, internal/team/phases.go):
    a plan/prd/exec/verify/fix pipeline with a bounded fix loop. */
module Phases {
  import opened Options

  datatype TeamPhase =
    | PhasePlan | PhasePRD | PhaseExec | PhaseVerify | PhaseFix
    | PhaseComplete | PhaseFailed | PhaseCancelled

  datatype Reason = Given(text: string) | FixLoopExceeded(maxFixLoops: int, text: string)

  datatype PhaseTransition = PhaseTransition(from: TeamPhase, to: TeamPhase, reason: Reason)

  datatype PhaseState = PhaseState(phase: TeamPhase, fixLoopCount: int, transitions: seq<PhaseTransition>)

  datatype PhaseError = PhaseTerminal | InvalidTransition(from: TeamPhase, to: TeamPhase)

  predicate IsTerminal(phase: TeamPhase) {
    phase in {PhaseComplete, PhaseFailed, PhaseCancelled}
  }

  function ValidTransitions(phase: TeamPhase): seq<TeamPhase> {
    match phase
    case PhasePlan => [PhasePRD, PhaseCancelled]
    case PhasePRD => [PhaseExec, PhaseCancelled]
    case PhaseExec => [PhaseVerify, PhaseCancelled]
    case PhaseVerify => [PhaseFix, PhaseComplete, PhaseFailed, PhaseCancelled]
    case PhaseFix => [PhaseExec, PhaseVerify, PhaseComplete, PhaseFailed, PhaseCancelled]
    case _ => []
  }

  function TransitionError(state: PhaseState, to: TeamPhase): Option<PhaseError> {
    if IsTerminal(state.phase) then Some(PhaseTerminal)
    else if to !in ValidTransitions(state.phase) then Some(InvalidTransition(state.phase, to))
    else None
  }

  /** The state after a request to move to `to`; a refused request changes nothing, and a request
      for the fix phase beyond the loop bound goes to failed instead. */
  function Transitioned(maxFixLoops: int, state: PhaseState, to: TeamPhase, reason: string): PhaseState {
    if TransitionError(state, to).Some? then state
    else if to == PhaseFix && state.fixLoopCount >= maxFixLoops then
      PhaseState(PhaseFailed, state.fixLoopCount,
                 state.transitions + [PhaseTransition(state.phase, PhaseFailed, FixLoopExceeded(maxFixLoops, reason))])
    else
      PhaseState(to, state.fixLoopCount + (if to == PhaseFix then 1 else 0),
                 state.transitions + [PhaseTransition(state.phase, to, Given(reason))])
  }

  const INITIAL := PhaseState(PhasePlan, 0, [])

  function Bound(maxFixLoops: int): nat {
    if maxFixLoops < 0 then 0 else maxFixLoops
  }

  function FixEntries(transitions: seq<PhaseTransition>): nat {
    if transitions == [] then 0
    else FixEntries(transitions[..|transitions| - 1]) + if transitions[|transitions| - 1].to == PhaseFix then 1 else 0
  }

  /** An upper bound on the transitions still to come when `left` fix loops remain. */
  function Remaining(phase: TeamPhase, left: nat): nat {
    match phase
    case PhasePlan => 3 * left + 4
    case PhasePRD => 3 * left + 3
    case PhaseExec => 3 * left + 2
    case PhaseVerify => 3 * left + 1
    case PhaseFix => 3 * left + 3
    case _ => 0
  }

  function FixLoopsLeft(maxFixLoops: int, state: PhaseState): nat {
    if state.fixLoopCount < Bound(maxFixLoops) then Bound(maxFixLoops) - state.fixLoopCount else 0
  }

  /** The transitions still to come from `state`, at most. */
  function Measure(maxFixLoops: int, state: PhaseState): nat {
    Remaining(state.phase, FixLoopsLeft(maxFixLoops, state))
  }

  predicate IsEdge(t: PhaseTransition) {
    t.to in ValidTransitions(t.from)
  }

  /** The history is a connected chain of allowed edges from plan to the current phase. */
  predicate IsChain(transitions: seq<PhaseTransition>, last: TeamPhase) {
    if transitions == [] then last == PhasePlan
    else
      var t := transitions[|transitions| - 1];
      t.to == last && IsEdge(t) && IsChain(transitions[..|transitions| - 1], t.from)
  }

  /** Each entry of a chain is an allowed edge that leaves the phase the entry before it led to. */
  lemma {:induction false} ChainIsConnected(transitions: seq<PhaseTransition>, last: TeamPhase, k: nat)
    requires IsChain(transitions, last) && k < |transitions|
    ensures IsEdge(transitions[k])
    ensures transitions[k].from == if k == 0 then PhasePlan else transitions[k - 1].to
  {
    var n := |transitions| - 1;
    if k < n {
      ChainIsConnected(transitions[..n], transitions[n].from, k);
    }
  }

  ghost predicate IsHistory(maxFixLoops: int, state: PhaseState) {
    && IsChain(state.transitions, state.phase)
    && state.fixLoopCount == FixEntries(state.transitions) <= Bound(maxFixLoops)
    && |state.transitions| + Measure(maxFixLoops, state) <= 3 * Bound(maxFixLoops) + 4
  }

  lemma ChainGrows(transitions: seq<PhaseTransition>, last: TeamPhase, next: PhaseTransition)
    requires IsChain(transitions, last) && next.from == last && IsEdge(next)
    ensures IsChain(transitions + [next], next.to)
    ensures FixEntries(transitions + [next]) == FixEntries(transitions) + if next.to == PhaseFix then 1 else 0
  {
    assert (transitions + [next])[..|transitions|] == transitions;
  }

  /** Every accepted request strictly lowers the measure. */
  lemma TransitionLowersMeasure(maxFixLoops: int, state: PhaseState, to: TeamPhase, reason: string)
    requires TransitionError(state, to).None? && state.fixLoopCount <= Bound(maxFixLoops)
    ensures var next := Transitioned(maxFixLoops, state, to, reason);
            && Measure(maxFixLoops, next) < Measure(maxFixLoops, state)
            && next.fixLoopCount <= Bound(maxFixLoops)
            && IsEdge(PhaseTransition(state.phase, next.phase, Given(reason)))
  {
  }

  /** One accepted request extends the history and keeps all of the above. */
  lemma TransitionKeepsHistory(maxFixLoops: int, state: PhaseState, to: TeamPhase, reason: string)
    requires IsHistory(maxFixLoops, state)
    ensures IsHistory(maxFixLoops, Transitioned(maxFixLoops, state, to, reason))
  {
    if TransitionError(state, to).None? {
      TransitionLowersMeasure(maxFixLoops, state, to, reason);
      var next := Transitioned(maxFixLoops, state, to, reason);
      HistoryGrows(maxFixLoops, state, next, next.transitions[|state.transitions|]);
    }
  }

  lemma HistoryGrows(maxFixLoops: int, state: PhaseState, next: PhaseState, t: PhaseTransition)
    requires IsHistory(maxFixLoops, state) && next.transitions == state.transitions + [t]
    requires t.from == state.phase && t.to == next.phase && IsEdge(t)
    requires next.fixLoopCount == state.fixLoopCount + (if t.to == PhaseFix then 1 else 0) <= Bound(maxFixLoops)
    requires Measure(maxFixLoops, next) < Measure(maxFixLoops, state)
    ensures IsHistory(maxFixLoops, next)
  {
    ChainGrows(state.transitions, state.phase, t);
  }

  /** The state after any sequence of requests, starting from a new team. */
  function AfterRequests(maxFixLoops: int, requests: seq<(TeamPhase, string)>): PhaseState {
    if requests == [] then INITIAL
    else
      var last := requests[|requests| - 1];
      Transitioned(maxFixLoops, AfterRequests(maxFixLoops, requests[..|requests| - 1]), last.0, last.1)
  }

  /** For every sequence of requests, of any length: the history is a connected chain of allowed
      edges, it counts the entries into fix, and with k fix loops it has at most 3k + 4 entries. */
  lemma {:induction false} HistoryIsBoundedChain(maxFixLoops: int, requests: seq<(TeamPhase, string)>)
    ensures IsHistory(maxFixLoops, AfterRequests(maxFixLoops, requests))
    ensures |AfterRequests(maxFixLoops, requests).transitions| <= 3 * Bound(maxFixLoops) + 4
  {
    if requests != [] {
      var last := requests[|requests| - 1];
      HistoryIsBoundedChain(maxFixLoops, requests[..|requests| - 1]);
      TransitionKeepsHistory(maxFixLoops, AfterRequests(maxFixLoops, requests[..|requests| - 1]), last.0, last.1);
    }
  }

  /** Whatever is requested, a team fails only out of verify or fix: the request that the coordination loop
      makes when a plan, prd or exec body fails is refused. */
  lemma FailsOnlyAfterExec(maxFixLoops: int, requests: seq<(TeamPhase, string)>, k: nat)
    requires k < |AfterRequests(maxFixLoops, requests).transitions|
    requires AfterRequests(maxFixLoops, requests).transitions[k].to == PhaseFailed
    ensures AfterRequests(maxFixLoops, requests).transitions[k].from in {PhaseVerify, PhaseFix}
  {
    HistoryIsBoundedChain(maxFixLoops, requests);
    var state := AfterRequests(maxFixLoops, requests);
    ChainIsConnected(state.transitions, state.phase, k);
  }

  /** The edges of the pipeline: forward, into and out of the fix loop, to failed out of verify and
      fix, and to cancelled out of every phase that is not terminal. */
  predicate MayGo(from: TeamPhase, to: TeamPhase) {
    match from
    case PhasePlan => to == PhasePRD || to == PhaseCancelled
    case PhasePRD => to == PhaseExec || to == PhaseCancelled
    case PhaseExec => to == PhaseVerify || to == PhaseCancelled
    case PhaseVerify => to == PhaseFix || to == PhaseComplete || to == PhaseFailed || to == PhaseCancelled
    case PhaseFix =>
      to == PhaseExec || to == PhaseVerify || to == PhaseComplete || to == PhaseFailed || to == PhaseCancelled
    case PhaseComplete => false
    case PhaseFailed => false
    case PhaseCancelled => false
  }

  /** A granted request adds one entry and moves on; a request for fix counts, and beyond the bound it goes
      to failed instead. */
  predicate Moves(maxFixLoops: int, before: PhaseState, after: PhaseState, to: TeamPhase, reason: string) {
    if to == PhaseFix && before.fixLoopCount >= maxFixLoops then
      after == PhaseState(PhaseFailed, before.fixLoopCount,
        before.transitions + [PhaseTransition(before.phase, PhaseFailed, FixLoopExceeded(maxFixLoops, reason))])
    else
      after == PhaseState(to, if to == PhaseFix then before.fixLoopCount + 1 else before.fixLoopCount,
        before.transitions + [PhaseTransition(before.phase, to, Given(reason))])
  }

  lemma TransitionedMoves(maxFixLoops: int, state: PhaseState, to: TeamPhase, reason: string)
    ensures TransitionError(state, to).None? <==> MayGo(state.phase, to)
    ensures if MayGo(state.phase, to) then Moves(maxFixLoops, state, Transitioned(maxFixLoops, state, to, reason), to, reason)
            else Transitioned(maxFixLoops, state, to, reason) == state
  {
    match state.phase
    case PhasePlan =>
    case PhasePRD =>
    case PhaseExec =>
    case PhaseVerify =>
    case PhaseFix =>
    case _ =>
  }

  /** After any requests, one more is granted exactly along the edges above, and otherwise changes nothing. */
  lemma NextRequest(maxFixLoops: int, requests: seq<(TeamPhase, string)>, to: TeamPhase, reason: string)
    ensures
      var before, after := AfterRequests(maxFixLoops, requests), AfterRequests(maxFixLoops, requests + [(to, reason)]);
      if MayGo(before.phase, to) then Moves(maxFixLoops, before, after, to, reason) else after == before
  {
    assert (requests + [(to, reason)])[..|requests|] == requests;
    TransitionedMoves(maxFixLoops, AfterRequests(maxFixLoops, requests), to, reason);
  }

  /** The state of a team after its cancellation was asked for: cancelled, with that entry added, unless it
      was complete, failed or cancelled before. */
  function Cancelled(state: PhaseState, reason: string): PhaseState {
    if state.phase in {PhaseComplete, PhaseFailed, PhaseCancelled} then state
    else
      PhaseState(PhaseCancelled, state.fixLoopCount,
                 state.transitions + [PhaseTransition(state.phase, PhaseCancelled, Given(reason))])
  }

  /** A cancelled team stays as it is whatever is requested later, and so does one that is complete or failed. */
  lemma {:induction false} TerminalStays(maxFixLoops: int, before: seq<(TeamPhase, string)>, after: seq<(TeamPhase, string)>)
    requires AfterRequests(maxFixLoops, before).phase in {PhaseComplete, PhaseFailed, PhaseCancelled}
    ensures AfterRequests(maxFixLoops, before + after) == AfterRequests(maxFixLoops, before)
  {
    if after == [] {
      assert before + after == before;
    } else {
      var n := |after| - 1;
      TerminalStays(maxFixLoops, before, after[..n]);
      assert (before + after)[..|before + after| - 1] == before + after[..n];
    }
  }

  /** From whatever point, one more request for cancelled ends the team as `Cancelled` says. */
  lemma CancelIsGranted(maxFixLoops: int, requests: seq<(TeamPhase, string)>, reason: string)
    ensures AfterRequests(maxFixLoops, requests + [(PhaseCancelled, reason)]) == Cancelled(AfterRequests(maxFixLoops, requests), reason)
  {
    NextRequest(maxFixLoops, requests, PhaseCancelled, reason);
  }

  /** The bound is reached: a run that uses every fix loop in full has exactly 3k + 4 entries. */
  lemma {:induction false} BoundIsTight(maxFixLoops: nat) returns (requests: seq<(TeamPhase, string)>)
    ensures |AfterRequests(maxFixLoops, requests).transitions| == 3 * maxFixLoops + 4
    ensures AfterRequests(maxFixLoops, requests).phase == PhaseFailed
  {
    requests := VerifyAfter(maxFixLoops, maxFixLoops);
    requests := Request(maxFixLoops, requests, PhaseFix);
  }

  lemma {:induction false} VerifyAfter(maxFixLoops: nat, loops: nat) returns (requests: seq<(TeamPhase, string)>)
    requires loops <= maxFixLoops
    ensures var state := AfterRequests(maxFixLoops, requests);
            state.phase == PhaseVerify && state.fixLoopCount == loops && |state.transitions| == 3 * loops + 3
  {
    if loops == 0 {
      requests := Move(maxFixLoops, [], PhasePRD);
    } else {
      requests := VerifyAfter(maxFixLoops, loops - 1);
      requests := Move(maxFixLoops, requests, PhaseFix);
    }
    requests := Move(maxFixLoops, requests, PhaseExec);
    requests := Move(maxFixLoops, requests, PhaseVerify);
  }

  /** One more request, which is granted. */
  lemma Move(maxFixLoops: int, before: seq<(TeamPhase, string)>, to: TeamPhase) returns (requests: seq<(TeamPhase, string)>)
    requires TransitionError(AfterRequests(maxFixLoops, before), to).None?
    requires to == PhaseFix ==> AfterRequests(maxFixLoops, before).fixLoopCount < maxFixLoops
    ensures var state, next := AfterRequests(maxFixLoops, before), AfterRequests(maxFixLoops, requests);
            && next.phase == to && |next.transitions| == |state.transitions| + 1
            && next.fixLoopCount == state.fixLoopCount + if to == PhaseFix then 1 else 0
  {
    requests := Request(maxFixLoops, before, to);
  }

  lemma Request(maxFixLoops: int, before: seq<(TeamPhase, string)>, to: TeamPhase) returns (requests: seq<(TeamPhase, string)>)
    ensures AfterRequests(maxFixLoops, requests) == Transitioned(maxFixLoops, AfterRequests(maxFixLoops, before), to, "")
  {
    requests := before + [(to, "")];
    assert requests[..|before|] == before;
  }

  class PhaseMachine {
    const maxFixLoops: int
    var phase: TeamPhase
    var fixLoopCount: int
    var transitions: seq<PhaseTransition>

    constructor (maxFixLoops: int)
      ensures this.maxFixLoops == maxFixLoops && View() == INITIAL
    {
      this.maxFixLoops := maxFixLoops;
      phase, fixLoopCount, transitions := PhasePlan, 0, [];
    }

    function View(): PhaseState
      reads this
    {
      PhaseState(phase, fixLoopCount, transitions)
    }

    method Transition(to: TeamPhase, reason: string) returns (error: Option<PhaseError>)
      modifies this
      ensures error == TransitionError(old(View()), to)
      ensures View() == Transitioned(maxFixLoops, old(View()), to, reason)
      ensures error.None? <==> MayGo(old(phase), to)
      ensures if error.None? then Moves(maxFixLoops, old(View()), View(), to, reason) else View() == old(View())
    {
      TransitionedMoves(maxFixLoops, View(), to, reason);
      var from := phase;
      if IsTerminal(from) {
        return Some(PhaseTerminal);
      }

      var valid := false;
      var allowed := ValidTransitions(from);
      for k := 0 to |allowed|
        invariant valid == (to in allowed[..k])
      {
        if allowed[k] == to {
          valid := true;
        }
      }
      assert allowed[..|allowed|] == allowed;
      if !valid {
        return Some(InvalidTransition(from, to));
      }

      var next, nextReason := to, Given(reason);
      if next == PhaseFix {
        if fixLoopCount >= maxFixLoops {
          next, nextReason := PhaseFailed, FixLoopExceeded(maxFixLoops, reason);
        } else {
          fixLoopCount := fixLoopCount + 1;
        }
      }
      transitions := transitions + [PhaseTransition(from, next, nextReason)];
      phase := next;
      error := None;
    }
  }
}
