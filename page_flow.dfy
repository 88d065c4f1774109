/**
 * The page that sequences the app: the age gate, the waiting room (with a
 * skip counter and a simulated match) and the text debate room.
 */
module PageFlow {
  import opened Optional

  /** `"ended"` is part of the type but no handler ever sets it. */
  datatype AppState = AgeGate | Waiting | Debate | Ended

  /** The handlers and the simulated match. `MatchFired(seen)` is a match
      timeout going off; `seen` is the `state` of the render that scheduled
      it, which is what its `state === "waiting"` test reads. */
  datatype Event = AgeConfirmed | Skipped | DebateEnded | Reported(reason: string) | MatchFired(seen: AppState)

  /** The page's two pieces of state. */
  datatype Flow = Flow(state: AppState, skipCount: nat)

  const Initial: Flow := Flow(AgeGate, 0)

  /** The length of every debate the page starts, in seconds. */
  const DebateDuration: int := 600

  const Topic: string := "Should we adopt universal basic income?"

  /** The page's response to one event. No event leads into `AgeGate` or
      `Ended`; only a skip touches the counter, by one. */
  function Step(f: Flow, e: Event): (r: Flow)
    ensures r.state == AgeGate ==> f.state == AgeGate
    ensures r.state == Ended ==> f.state == Ended
    ensures r.skipCount == f.skipCount + (if e.Skipped? then 1 else 0)
    ensures e.Skipped? ==> r.state == f.state
    ensures r.state == Debate ==> f.state == Debate || e == MatchFired(Waiting)
  {
    match e
    case AgeConfirmed => f.(state := Waiting)
    case Skipped => f.(skipCount := f.skipCount + 1)
    case DebateEnded => f.(state := Waiting)
    case Reported(_) => f.(state := Waiting)
    case MatchFired(seen) => if seen == Waiting then f.(state := Debate) else f
  }

  /** The page after a sequence of events, first event first. */
  function Run(f: Flow, es: seq<Event>): Flow
    decreases |es|
  {
    if es == [] then f else Run(Step(f, es[0]), es[1..])
  }

  function CountSkips(es: seq<Event>): nat
    decreases |es|
  {
    if es == [] then 0 else (if es[0].Skipped? then 1 else 0) + CountSkips(es[1..])
  }

  /** Once the age gate is passed it is never shown again, and `Ended` is
      never reached from any other state. */
  lemma {:induction false} RunStaysOut(f: Flow, es: seq<Event>)
    ensures f.state != AgeGate ==> Run(f, es).state != AgeGate
    ensures f.state != Ended ==> Run(f, es).state != Ended
    decreases |es|
  {
    if es != [] {
      RunStaysOut(Step(f, es[0]), es[1..]);
    }
  }

  /** From the page's initial state, `Ended` is unreachable. */
  lemma EndedUnreachable(es: seq<Event>)
    ensures Run(Initial, es).state != Ended
  {
    RunStaysOut(Initial, es);
  }

  /** The skip counter counts the skips and nothing else. */
  lemma {:induction false} SkipCountCountsSkips(f: Flow, es: seq<Event>)
    ensures Run(f, es).skipCount == f.skipCount + CountSkips(es)
    decreases |es|
  {
    if es != [] {
      SkipCountCountsSkips(Step(f, es[0]), es[1..]);
    }
  }

  /** The skip props of the waiting room. */
  datatype SkipGate = SkipGate(canSkip: bool, skipCooldown: Option<int>)

  /** `canSkip` and `skipCooldown`: skipping is allowed for the first three
      skips; from the third skip on a 10-second cooldown is shown instead.
      Exactly one of the two is ever on. */
  function SkipGateFor(skipCount: int): (g: SkipGate)
    ensures g.canSkip <==> skipCount < 3
    ensures g.skipCooldown == Some(10) <==> skipCount >= 3
    ensures g.canSkip <==> g.skipCooldown.None?
  {
    SkipGate(skipCount < 3, if skipCount >= 3 then Some(10) else None)
  }

  /** What the page renders. */
  datatype View =
    | AgeGateView
    | WaitingView(topic: string, queuePosition: int, gate: SkipGate)
    | DebateView(topic: string, duration: int)
    | NoView

  class Page {
    var state: AppState
    var skipCount: nat
    /** One entry per match timeout scheduled and not yet fired: the
        `state` of the render that scheduled it. */
    var pendingMatches: seq<AppState>

    ghost function Snapshot(): Flow
      reads this
    {
      Flow(state, skipCount)
    }

    /** `Ended` is never the state, no timeout is pending before the age
        gate is passed, and every pending timeout was scheduled while
        waiting. */
    ghost predicate Valid()
      reads this
    {
      && state != Ended
      && (state == AgeGate ==> pendingMatches == [])
      && forall i :: 0 <= i < |pendingMatches| ==> pendingMatches[i] == Waiting
    }

    constructor ()
      ensures Valid() && Snapshot() == Initial && pendingMatches == []
    {
      state := AgeGate;
      skipCount := 0;
      pendingMatches := [];
    }

    /** `handleAgeConfirm`: on to the waiting room. */
    method AgeConfirm()
      requires Valid()
      modifies this`state
      ensures Valid() && Snapshot() == Step(old(Snapshot()), AgeConfirmed)
      ensures state == Waiting
    {
      state := Waiting;
    }

    /** `handleSkip`: one more skip, nothing else changes. */
    method Skip()
      requires Valid()
      modifies this`skipCount
      ensures Valid() && Snapshot() == Step(old(Snapshot()), Skipped)
      ensures skipCount == old(skipCount) + 1 && state == old(state)
    {
      skipCount := skipCount + 1;
    }

    /** `handleEndDebate`: back to the waiting room. */
    method EndDebate()
      requires Valid()
      modifies this`state
      ensures Valid() && Snapshot() == Step(old(Snapshot()), DebateEnded)
      ensures state == Waiting
    {
      state := Waiting;
    }

    /** `handleReport`: the reason is only logged; back to the waiting room. */
    method Report(reason: string)
      requires Valid()
      modifies this`state
      ensures Valid() && Snapshot() == Step(old(Snapshot()), Reported(reason))
      ensures state == Waiting
    {
      state := Waiting;
    }

    /** A render; `roll` is `Math.floor(Math.random() * 10)`. Every render
        while waiting schedules one more match timeout that remembers the
        state it was rendered in. */
    method Render(roll: int) returns (v: View)
      requires Valid() && 0 <= roll < 10
      modifies this`pendingMatches
      ensures Valid()
      ensures state == Waiting ==> pendingMatches == old(pendingMatches) + [Waiting]
      ensures state != Waiting ==> pendingMatches == old(pendingMatches)
      ensures state == AgeGate <==> v == AgeGateView
      ensures state == Waiting <==> v == WaitingView(Topic, roll + 1, SkipGateFor(skipCount))
      ensures state == Debate <==> v == DebateView(Topic, DebateDuration)
    {
      match state
      case AgeGate =>
        v := AgeGateView;
      case Waiting =>
        pendingMatches := pendingMatches + [state];
        v := WaitingView(Topic, roll + 1, SkipGateFor(skipCount));
      case Debate =>
        v := DebateView(Topic, DebateDuration);
      case Ended =>
        v := NoView;
    }

    /** The `i`-th pending match timeout goes off. Its test reads the state
        it was scheduled in, which was always `Waiting`, so it always moves
        the page to the debate, even from a later render's debate. */
    method FireMatch(i: nat)
      requires Valid() && i < |pendingMatches|
      modifies this`state, this`pendingMatches
      ensures Valid() && Snapshot() == Step(old(Snapshot()), MatchFired(old(pendingMatches)[i]))
      ensures pendingMatches == old(pendingMatches)[..i] + old(pendingMatches)[i + 1..]
      ensures state == Debate
    {
      var seen := pendingMatches[i];
      pendingMatches := pendingMatches[..i] + pendingMatches[i + 1..];
      if seen == Waiting {
        state := Debate;
      }
    }
  }
}
