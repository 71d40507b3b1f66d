/** The stop and redial handshake of util/redialer.go, for any number of concurrent callers.

    What happens under the lock is one step; so is one dial, and one wait between dials. */
module Redialer {
  import opened Sequences

  datatype RedialerState = Unconfigured | Redialing | Stopped

  /** The shared part; the channels by how often they were closed. */
  datatype Shared = Shared(stateValue: RedialerState, stopping: nat, reallyStopped: nat)

  const TWO_TO_THE_32: nat := 0x1_0000_0000

  /** Counting attempts in 32 bits wraps around. */
  function Next32(n: nat): (r: nat) {
    (n + 1) % TWO_TO_THE_32
  }

  const FRESH := Shared(Unconfigured, 0, 0)

  function SetIfEqual(s: Shared, before: RedialerState, after: RedialerState): (r: Shared) {
    if s.stateValue == before then s.(stateValue := after) else s
  }

  function SetStopped(s: Shared): (r: Shared) {
    match s.stateValue
    case Stopped => s
    case Unconfigured => Shared(Stopped, s.stopping + 1, s.reallyStopped + 1)
    case Redialing => Shared(Stopped, s.stopping + 1, s.reallyStopped)
  }

  /** The locked methods. */
  class AutoRedialer {
    var stateValue: RedialerState
    var stopping: nat
    var reallyStopped: nat

    constructor ()
      ensures State() == FRESH
    {
      stateValue, stopping, reallyStopped := Unconfigured, 0, 0;
    }

    function State(): (r: Shared)
      reads this
    {
      Shared(stateValue, stopping, reallyStopped)
    }

    method SetStateIfEqual(oldState: RedialerState, newState: RedialerState) returns (ok: bool)
      modifies this
      ensures ok == (old(stateValue) == oldState)
      ensures State() == SetIfEqual(old(State()), oldState, newState)
    {
      if stateValue != oldState {
        return false;
      }
      stateValue := newState;
      return true;
    }

    method SetStateStopped()
      modifies this
      ensures State() == SetStopped(old(State()))
    {
      match stateValue {
        case Stopped => return;
        case Unconfigured => reallyStopped := reallyStopped + 1;
        case Redialing =>
      }
      stateValue := Stopped;
      stopping := stopping + 1;
    }
  }

  // ----- The callers ---------------------------------------------------------------------------

  /** Where a caller is.  `attempts` counts the dials that failed. */
  datatype Caller =
    | RedialCalled
    | Checking(attempts: nat)
    | Going(attempts: nat)          // has seen that it may dial
    | Dialing(attempts: nat)
    | Waiting(attempts: nat)        // between two dials
    | Closing(result: nat)          // about to close `reallyStopped`
    | RedialReturned(result: nat)
    | StopCalled
    | StopWaiting
    | StopReturned

  /** `owner` is the caller whose Redial took effect, `dials` and `lateDials` count its dials, all and
      those begun after the redialer was stopped: history. */
  datatype State = State(shared: Shared, callers: map<nat, Caller>, owner: Option<nat>, dials: nat, lateDials: nat)

  const INIT := State(FRESH, map[], None, 0, 0)

  datatype Step =
    | CallRedial(id: nat)
    | CallStop(id: nat)
    | Enter(id: nat)
    | Check(id: nat)
    | Dial(id: nat)
    | Dialed(id: nat, ok: bool)
    | WakeUp(id: nat)
    | Close(id: nat)
    | Halt(id: nat)
    | ReturnFromStop(id: nat)

  predicate Enabled(s: State, step: Step) {
    match step
    case CallRedial(id) => id !in s.callers
    case CallStop(id) => id !in s.callers
    case Enter(id) => id in s.callers && s.callers[id].RedialCalled?
    case Check(id) => id in s.callers && s.callers[id].Checking?
    case Dial(id) => id in s.callers && s.callers[id].Going?
    case Dialed(id, _) => id in s.callers && s.callers[id].Dialing?
    case WakeUp(id) => id in s.callers && s.callers[id].Waiting?
    case Close(id) => id in s.callers && s.callers[id].Closing?
    case Halt(id) => id in s.callers && s.callers[id].StopCalled?
    case ReturnFromStop(id) => id in s.callers && s.callers[id].StopWaiting? && s.shared.reallyStopped > 0
  }

  function At(s: State, id: nat, caller: Caller): (r: State) {
    s.(callers := s.callers[id := caller])
  }

  function Do(s: State, step: Step): (r: State)
    requires Enabled(s, step)
  {
    match step
    case CallRedial(id) => At(s, id, RedialCalled)
    case CallStop(id) => At(s, id, StopCalled)
    case Enter(id) =>
      if s.shared.stateValue == Unconfigured then
        At(s, id, Checking(0)).(shared := SetIfEqual(s.shared, Unconfigured, Redialing), owner := Some(id))
      else At(s, id, RedialReturned(0))
    case Check(id) =>
      var n := s.callers[id].attempts;
      At(s, id, if s.shared.stateValue == Redialing then Going(n) else Closing(n))
    case Dial(id) =>
      At(s, id, Dialing(s.callers[id].attempts))
        .(dials := s.dials + 1, lateDials := s.lateDials + if s.shared.stateValue == Stopped then 1 else 0)
    case Dialed(id, ok) =>
      var n := Next32(s.callers[id].attempts);
      At(s, id, if ok then Closing(n) else Waiting(n))
    case WakeUp(id) => At(s, id, Checking(s.callers[id].attempts))
    case Close(id) =>
      At(s, id, RedialReturned(s.callers[id].result))
        .(shared := s.shared.(reallyStopped := s.shared.reallyStopped + 1))
    case Halt(id) => At(s, id, StopWaiting).(shared := SetStopped(s.shared))
    case ReturnFromStop(id) => At(s, id, StopReturned)
  }

  ghost predicate IsRun(run: seq<State>, steps: seq<Step>) {
    && |run| == |steps| + 1 && run[0] == INIT
    && forall i :: 0 <= i < |steps| ==> Enabled(run[i], steps[i]) && run[i + 1] == Do(run[i], steps[i])
  }

  /** In its retry loop, or about to leave it. */
  predicate Active(c: Caller) {
    c.Checking? || c.Going? || c.Dialing? || c.Waiting? || c.Closing?
  }

  predicate RedialInProgress(s: State) {
    exists id :: id in s.callers && Active(s.callers[id])
  }

  // ----- The invariant -------------------------------------------------------------------------

  /** The channels by what the owner does and the state. */
  ghost predicate ChannelsInv(s: State) {
    && s.shared.stopping == (if s.shared.stateValue == Stopped then 1 else 0)
    && (s.owner.None? ==>
          && s.shared.stateValue != Redialing && s.dials == 0 && s.lateDials == 0
          && s.shared.reallyStopped == if s.shared.stateValue == Stopped then 1 else 0)
    && (s.owner.Some? ==>
          && s.owner.value in s.callers && s.shared.stateValue != Unconfigured
          && (Active(s.callers[s.owner.value]) || s.callers[s.owner.value].RedialReturned?)
          && s.shared.reallyStopped == if Active(s.callers[s.owner.value]) then 0 else 1)
  }

  ghost predicate OwnerInv(s: State) {
    forall id :: id in s.callers && Active(s.callers[id]) ==> s.owner == Some(id)
  }

  ghost predicate StopInv(s: State) {
    forall id :: id in s.callers ==>
      && (s.callers[id].StopWaiting? || s.callers[id].StopReturned? ==> s.shared.stateValue == Stopped)
      && (s.callers[id].StopReturned? ==> s.shared.reallyStopped > 0)
      && (s.callers[id].RedialReturned? && s.owner != Some(id) ==> s.callers[id].result == 0)
  }

  /** The number of dials, and at most one of them late. */
  ghost predicate DialsInv(s: State) {
    && (s.shared.stateValue != Stopped ==> s.lateDials == 0) && s.lateDials <= 1
    && (s.owner.Some? && s.owner.value in s.callers ==>
          match s.callers[s.owner.value]
          case Checking(n) => s.dials % TWO_TO_THE_32 == n
          case Going(n) => s.dials % TWO_TO_THE_32 == n && s.lateDials == 0
          case Dialing(n) => s.dials % TWO_TO_THE_32 == Next32(n)
          case Waiting(n) => s.dials % TWO_TO_THE_32 == n
          case Closing(n) => s.dials % TWO_TO_THE_32 == n
          case RedialReturned(n) => s.dials % TWO_TO_THE_32 == n
          case _ => true)
  }

  ghost predicate Inv(s: State) {
    ChannelsInv(s) && OwnerInv(s) && StopInv(s) && DialsInv(s)
  }

  lemma {:induction false} StepKeeps(s: State, step: Step)
    requires Inv(s) && Enabled(s, step)
    ensures Inv(Do(s, step))
  {
  }

  lemma {:induction false} InvAlong(run: seq<State>, steps: seq<Step>, i: nat)
    requires IsRun(run, steps) && i < |run|
    ensures Inv(run[i])
    decreases i
  {
    if i > 0 {
      InvAlong(run, steps, i - 1);
      hide Inv, Enabled, Do;
      assert run[i] == Do(run[i - 1], steps[i - 1]);
      StepKeeps(run[i - 1], steps[i - 1]);
    }
  }

  // ----- Theorems about runs -------------------------------------------------------------------

  /** Neither channel is ever closed twice, and no two callers dial, now or at any other time. */
  lemma {:induction false} ClosedOnceAndOneDials(run: seq<State>, steps: seq<Step>, i: nat, j: nat, a: nat, b: nat)
    requires IsRun(run, steps) && i <= j < |run|
    ensures run[i].shared.stopping <= 1 && run[i].shared.reallyStopped <= 1
    ensures a in run[i].callers && Active(run[i].callers[a]) && b in run[j].callers && Active(run[j].callers[b]) ==>
              a == b
  {
    InvAlong(run, steps, i);
    InvAlong(run, steps, j);
    OwnerStays(run, steps, i, j);
  }

  lemma {:induction false} OwnerStays(run: seq<State>, steps: seq<Step>, i: nat, j: nat)
    requires IsRun(run, steps) && i <= j < |run|
    ensures run[i].owner.Some? ==> run[j].owner == run[i].owner
    ensures run[i].shared.stateValue == Stopped ==> run[j].shared.stateValue == Stopped
    ensures run[i].shared.stateValue == Stopped ==> run[j].owner == run[i].owner
    ensures run[i].shared.reallyStopped <= run[j].shared.reallyStopped
    decreases j
  {
    if i < j {
      OwnerStays(run, steps, i, j - 1);
      InvAlong(run, steps, j - 1);
      assert run[j] == Do(run[j - 1], steps[j - 1]);
    }
  }

  /** Once a Stop has returned no Redial is in progress, nor is one ever again. */
  lemma {:induction false} StoppedForGood(run: seq<State>, steps: seq<Step>, i: nat, j: nat, stop: nat)
    requires IsRun(run, steps) && i <= j < |run|
    requires stop in run[i].callers && run[i].callers[stop].StopReturned?
    ensures !RedialInProgress(run[j]) && run[j].dials == run[i].dials
    decreases j
  {
    InvAlong(run, steps, i);
    InvAlong(run, steps, j);
    OwnerStays(run, steps, i, j);
    if i < j {
      StoppedForGood(run, steps, i, j - 1, stop);
      assert run[j] == Do(run[j - 1], steps[j - 1]);
    }
  }

  /** A Stop that waits can return if and only if no Redial is in progress. */
  lemma {:induction false} StopWaitsForRedialOnly(run: seq<State>, steps: seq<Step>, i: nat, stop: nat)
    requires IsRun(run, steps) && i < |run|
    requires stop in run[i].callers && run[i].callers[stop].StopWaiting?
    ensures Enabled(run[i], ReturnFromStop(stop)) <==> !RedialInProgress(run[i])
  {
    InvAlong(run, steps, i);
    var s := run[i];
    if s.owner.Some? && Active(s.callers[s.owner.value]) {
      assert RedialInProgress(s);
    }
  }

  /** At most one dial begins after the redialer was stopped, and a Redial returns the number of its
      dials modulo 2 to the 32nd, which is 0 for one that did not take effect. */
  lemma {:induction false} DialsAreCounted(run: seq<State>, steps: seq<Step>, i: nat, id: nat)
    requires IsRun(run, steps) && i < |run|
    ensures run[i].lateDials <= 1
    ensures id in run[i].callers && run[i].callers[id].RedialReturned? ==>
              run[i].callers[id].result == if run[i].owner == Some(id) then run[i].dials % TWO_TO_THE_32 else 0
  {
    InvAlong(run, steps, i);
  }

  /** A dial by this caller has succeeded. */
  ghost predicate HasDialed(steps: seq<Step>, i: nat, id: nat)
    requires i <= |steps|
  {
    exists k :: 0 <= k < i && steps[k] == Dialed(id, true)
  }

  lemma {:induction false} EndsStep(s: State, step: Step, id: nat)
    requires Inv(s) && Enabled(s, step) && id in Do(s, step).callers && Do(s, step).owner == Some(id)
    requires Do(s, step).callers[id].Closing? || Do(s, step).callers[id].RedialReturned?
    requires Do(s, step).shared.stateValue != Stopped
    ensures step == Dialed(id, true) ||
            (id in s.callers && s.owner == Some(id) && (s.callers[id].Closing? || s.callers[id].RedialReturned?))
  {
  }

  /** A Redial that took effect ends only after one of its dials succeeded or the redialer was stopped. */
  lemma {:induction false} EndsOnlyWhenDialedOrStopped(run: seq<State>, steps: seq<Step>, i: nat, id: nat)
    requires IsRun(run, steps) && i < |run| && id in run[i].callers && run[i].owner == Some(id)
    requires run[i].callers[id].Closing? || run[i].callers[id].RedialReturned?
    ensures run[i].shared.stateValue == Stopped || HasDialed(steps, i, id)
    decreases i
  {
    if i > 0 && run[i].shared.stateValue != Stopped {
      var s, step := run[i - 1], steps[i - 1];
      assert run[i] == Do(s, step);
      InvAlong(run, steps, i - 1);
      EndsStep(s, step, id);
      if step != Dialed(id, true) {
        OwnerStays(run, steps, i - 1, i);
        EndsOnlyWhenDialedOrStopped(run, steps, i - 1, id);
      }
    }
  }

  /** The first Redial takes effect: it may dial at once, and when the dial succeeds it returns 1 and lets go all
      that wait for it. */
  lemma {:induction false} FirstDialSucceeds(s: State, id: nat)
    requires s.shared == FRESH && id in s.callers && s.callers[id] == RedialCalled
    ensures var s1 := Do(s, Enter(id));
            && s1.owner == Some(id) && Enabled(s1, Check(id)) && Enabled(Do(s1, Check(id)), Dial(id))
            && var s2 := Do(Do(s1, Check(id)), Dial(id));
               && s2.dials == s.dials + 1 && Enabled(s2, Dialed(id, true))
               && Enabled(Do(s2, Dialed(id, true)), Close(id))
               && var s3 := Do(Do(s2, Dialed(id, true)), Close(id));
                  s3.callers[id] == RedialReturned(1) && s3.shared.reallyStopped == 1
  {
  }

  /** After a dial that failed the caller dials once more, unless the redialer is stopped before it wakes
      up; then it is about to end. */
  lemma {:induction false} FailedDialIsTriedAgain(s: State, id: nat)
    requires Enabled(s, Dialed(id, false))
    ensures var s1 := Do(s, Dialed(id, false));
            && Enabled(s1, WakeUp(id)) && Enabled(Do(s1, WakeUp(id)), Check(id))
            && var s2 := Do(Do(s1, WakeUp(id)), Check(id));
               if s.shared.stateValue == Redialing then Enabled(s2, Dial(id)) && Do(s2, Dial(id)).dials == s.dials + 1
               else s2.callers[id].Closing?
  {
  }
}
