/** Runs of the helper pool: inputs that arrive, the loop, helpers that finish, and timers, interleaved
    in any way.  Launchers give instance ids that are not in use. */
module HelperPoolRuns {
  import opened Sequences
  import opened HelperPool

  /** What a place taken by an application is used for: a launched helper, one that has finished and
      is being answered, or one that is answered but not yet reported to the loop. */
  datatype Slot = Launched(uid: string, input: HelperInput) | Finishing(input: HelperInput) | Answered

  datatype State = State(
    maxNum: nat,
    pool: Pool,
    queue: seq<HelperInput>,        // sent to the loop
    finishing: seq<HelperArgs>,     // taken out of the table by `OneDone`
    doneCh: seq<string>,            // applications to be reported to the loop
    submitted: seq<HelperInput>,    // history: all inputs in order
    slots: map<string, Slot>)       // history: what each running application does

  function Init(maxNum: nat): (r: State) {
    State(maxNum, Pool({}, [], map[], []), [], [], [], [], map[])
  }

  datatype Step =
    | Run(input: HelperInput)
    | TakeInput(launch: Launch)
    | TakeDone(i: nat, launch: Launch)
    | ForceStop(uid: string)
    | TakeOut(uid: string)
    | Finish(i: nat, output: Option<string>)

  ghost predicate FreshIds(hmap: map<string, HelperArgs>, launch: Launch) {
    forall input :: launch(input).Some? ==> Uid(input, launch(input).value) !in hmap
  }

  ghost predicate Enabled(s: State, step: Step) {
    match step
    case Run(_) => true
    case TakeInput(launch) => s.queue != [] && FreshIds(s.pool.hmap, launch)
    case TakeDone(i, launch) => i < |s.doneCh| && FreshIds(s.pool.hmap, launch)
    case ForceStop(_) => true
    case TakeOut(uid) => uid in s.pool.hmap
    case Finish(i, _) => i < |s.finishing|
  }

  function PlaceSlot(slots: map<string, Slot>, input: HelperInput, launch: Launch): (r: map<string, Slot>) {
    match launch(input)
    case None => slots
    case Some(iid) => slots[input.app := Launched(Uid(input, iid), input)]
  }

  /** The slots along a scan. */
  function ScanSlots(slots: map<string, Slot>, p: Pool, rest: seq<HelperInput>, done: bool, launch: Launch)
    : (r: map<string, Slot>)
    decreases |rest|
  {
    if rest == [] then slots
    else if !done && rest[0].app !in p.running then
      ScanSlots(PlaceSlot(slots, rest[0], launch), Place(p, rest[0], launch), rest[1..], launch(rest[0]).Some?, launch)
    else ScanSlots(slots, p.(backlog := p.backlog + [rest[0]]), rest[1..], done, launch)
  }

  function Remove<T>(s: seq<T>, i: nat): (r: seq<T>)
    requires i < |s|
    ensures |r| == |s| - 1 && forall k :: 0 <= k < |r| ==> r[k] == s[if k < i then k else k + 1]
  {
    s[..i] + s[i + 1..]
  }

  ghost function Do(s: State, step: Step): (r: State)
    requires Enabled(s, step)
  {
    match step
    case Run(input) => s.(queue := s.queue + [input], submitted := s.submitted + [input])
    case TakeInput(launch) =>
      var input := s.queue[0];
      s.(queue := s.queue[1..],
         pool := AfterInput(s.pool, s.maxNum, input, launch),
         slots := if |s.pool.running| >= s.maxNum || input.app in s.pool.running then s.slots
                  else PlaceSlot(s.slots, input, launch))
    case TakeDone(i, launch) =>
      var app := s.doneCh[i];
      var p := s.pool.(running := s.pool.running - {app}, backlog := []);
      s.(doneCh := Remove(s.doneCh, i),
         pool := AfterDone(s.pool, app, launch),
         slots := ScanSlots(s.slots - {app}, p, s.pool.backlog, false, launch))
    case ForceStop(uid) =>
      if uid in s.pool.hmap then
        s.(pool := s.pool.(hmap := s.pool.hmap[uid := s.pool.hmap[uid].(forcedStop := true)]))
      else s
    case TakeOut(uid) =>
      var args := s.pool.hmap[uid];
      s.(pool := s.pool.(hmap := s.pool.hmap - {uid}),
         finishing := s.finishing + [args],
         slots := s.slots[args.input.app := Finishing(args.input)])
    case Finish(i, output) =>
      var args := s.finishing[i];
      s.(pool := s.pool.(results := s.pool.results + [Answer(args, output)]),
         finishing := Remove(s.finishing, i),
         doneCh := s.doneCh + [args.input.app],
         slots := s.slots[args.input.app := Answered])
  }

  ghost predicate IsRun(run: seq<State>, steps: seq<Step>, maxNum: nat) {
    && |run| == |steps| + 1 && run[0] == Init(maxNum)
    && forall i :: 0 <= i < |steps| ==> Enabled(run[i], steps[i]) && run[i + 1] == Do(run[i], steps[i])
  }

  /** The inputs of an application, in order. */
  ghost function Of(inputs: seq<HelperInput>, app: string): (r: seq<HelperInput>) {
    if inputs == [] then []
    else if inputs[|inputs| - 1].app == app then Of(inputs[..|inputs| - 1], app) + [inputs[|inputs| - 1]]
    else Of(inputs[..|inputs| - 1], app)
  }

  /** The inputs of an application that were answered, in the order of the answers. */
  ghost function AnsweredOf(results: seq<HelperResult>, app: string): (r: seq<HelperInput>) {
    Of(seq(|results|, i requires 0 <= i < |results| => results[i].input), app)
  }

  /** The input of an application that its helper is working on. */
  ghost function InFlight(slots: map<string, Slot>, app: string): (r: seq<HelperInput>) {
    if app in slots && !slots[app].Answered? then [slots[app].input] else []
  }

  // ----- The invariant -------------------------------------------------------------------------

  ghost predicate SlotsInv(running: set<string>, hmap: map<string, HelperArgs>, slots: map<string, Slot>) {
    && running == slots.Keys
    && (forall uid :: uid in hmap ==>
          var input := hmap[uid].input; input.app in slots && slots[input.app] == Launched(uid, input))
    && (forall a :: a in slots ==>
          match slots[a]
          case Launched(uid, input) => input.app == a && uid in hmap && hmap[uid].input == input
          case Finishing(input) => input.app == a
          case Answered => true)
  }

  ghost predicate FinishingInv(finishing: seq<HelperArgs>, slots: map<string, Slot>) {
    && (forall i :: 0 <= i < |finishing| ==>
          var input := finishing[i].input; input.app in slots && slots[input.app] == Finishing(input))
    && (forall i, j :: 0 <= i < j < |finishing| ==> finishing[i].input.app != finishing[j].input.app)
    && (forall a :: a in slots && slots[a].Finishing? ==>
          exists i :: 0 <= i < |finishing| && finishing[i].input == slots[a].input)
  }

  ghost predicate DoneInv(doneCh: seq<string>, slots: map<string, Slot>) {
    && Distinct(doneCh)
    && (forall i :: 0 <= i < |doneCh| ==> doneCh[i] in slots && slots[doneCh[i]].Answered?)
    && (forall a :: a in slots && slots[a].Answered? ==> a in doneCh)
  }

  /** All places are taken, or every waiting input waits for its own application. */
  ghost predicate WorkConserving(p: Pool, maxNum: nat) {
    |p.running| == maxNum || AllRunning(p.backlog, p.running)
  }

  ghost predicate AllRunning(inputs: seq<HelperInput>, running: set<string>) {
    forall i :: 0 <= i < |inputs| ==> inputs[i].app in running
  }

  /** Answered, in flight, waiting, queued: together, in this order, what was submitted. */
  ghost predicate OrderInv(s: State, app: string) {
    AnsweredOf(s.pool.results, app) + InFlight(s.slots, app) + Of(s.pool.backlog, app) + Of(s.queue, app)
    == Of(s.submitted, app)
  }

  ghost predicate Inv(s: State) {
    && SlotsInv(s.pool.running, s.pool.hmap, s.slots)
    && FinishingInv(s.finishing, s.slots) && DoneInv(s.doneCh, s.slots)
    && |s.pool.running| <= s.maxNum && WorkConserving(s.pool, s.maxNum)
    && forall a :: OrderInv(s, a)
  }

  // ----- Sequences of an application -----------------------------------------------------------

  lemma {:induction false} OfConcat(a: seq<HelperInput>, b: seq<HelperInput>, app: string)
    ensures Of(a + b, app) == Of(a, app) + Of(b, app)
  {
    if b == [] {
      assert a + b == a;
    } else {
      assert (a + b)[..|a + b| - 1] == a + b[..|b| - 1];
      OfConcat(a, b[..|b| - 1], app);
    }
  }

  /** The input itself if it is of the application. */
  ghost function One(input: HelperInput, app: string): (r: seq<HelperInput>) {
    if input.app == app then [input] else []
  }

  lemma {:induction false} OfPush(a: seq<HelperInput>, input: HelperInput, app: string)
    ensures Of(a + [input], app) == Of(a, app) + One(input, app)
  {
    assert (a + [input])[..|a|] == a;
  }

  lemma {:induction false} OfPop(a: seq<HelperInput>, app: string)
    requires a != []
    ensures Of(a, app) == One(a[0], app) + Of(a[1..], app)
  {
    OfConcat([a[0]], a[1..], app);
    OfPush([], a[0], app);
    assert [a[0]] + a[1..] == a && [] + [a[0]] == [a[0]];
  }

  lemma {:induction false} OfNone(inputs: seq<HelperInput>, app: string)
    requires forall i :: 0 <= i < |inputs| ==> inputs[i].app != app
    ensures Of(inputs, app) == []
  {
    if inputs != [] {
      OfNone(inputs[..|inputs| - 1], app);
    }
  }

  lemma {:induction false} AnsweredPush(results: seq<HelperResult>, r: HelperResult, app: string)
    ensures AnsweredOf(results + [r], app) == AnsweredOf(results, app) + One(r.input, app)
  {
    var before := seq(|results|, i requires 0 <= i < |results| => results[i].input);
    var more := results + [r];
    assert seq(|more|, i requires 0 <= i < |more| => more[i].input) == before + [r.input];
    OfPush(before, r.input, app);
  }

  /** Moving `one` over an empty list. */
  lemma {:induction false} Shift<T>(a: seq<T>, a': seq<T>, one: seq<T>, b: seq<T>, rest: seq<T>)
    requires a' == a + one && (one == [] || b == [])
    ensures a' + b + rest == a + b + (one + rest)
  {
    if one == [] {
      assert a + one == a && one + rest == rest;
    } else {
      assert a' + b == a' && a + b == a;
      assert (a + one) + rest == a + (one + rest);
    }
  }

  lemma {:induction false} Regroup<T>(a: seq<T>, b: seq<T>, one: seq<T>, rest: seq<T>)
    ensures a + (b + one) + rest == a + b + (one + rest)
  {
    assert a + (b + one) == a + b + one;
    assert (a + b + one) + rest == a + b + (one + rest);
  }

  // ----- Placing one input ---------------------------------------------------------------------

  lemma {:induction false} PlaceSlots(p: Pool, slots: map<string, Slot>, input: HelperInput, launch: Launch)
    requires SlotsInv(p.running, p.hmap, slots) && input.app !in p.running && FreshIds(p.hmap, launch)
    ensures var q := Place(p, input, launch);
            SlotsInv(q.running, q.hmap, PlaceSlot(slots, input, launch))
  {
  }

  lemma {:induction false} PlaceOthers(finishing: seq<HelperArgs>, doneCh: seq<string>, slots: map<string, Slot>,
                                       input: HelperInput, launch: Launch)
    requires FinishingInv(finishing, slots) && DoneInv(doneCh, slots) && input.app !in slots
    ensures FinishingInv(finishing, PlaceSlot(slots, input, launch)) && DoneInv(doneCh, PlaceSlot(slots, input, launch))
  {
  }

  /** Placing an input puts it after everything answered or in flight of its application. */
  lemma {:induction false} PlaceOrder(p: Pool, slots: map<string, Slot>, input: HelperInput, launch: Launch,
                                      app: string)
    requires p.running == slots.Keys && input.app !in p.running
    ensures var q, slots' := Place(p, input, launch), PlaceSlot(slots, input, launch);
            AnsweredOf(q.results, app) + InFlight(slots', app) ==
            AnsweredOf(p.results, app) + InFlight(slots, app) + One(input, app)
  {
    AnsweredPush(p.results, Failed(input), app);
    hide AnsweredOf;
  }

  // ----- A scan --------------------------------------------------------------------------------

  lemma {:induction false} ScanSlotsInv(p: Pool, slots: map<string, Slot>, rest: seq<HelperInput>, done: bool,
                                        launch: Launch,
                                        finishing: seq<HelperArgs>, doneCh: seq<string>)
    requires SlotsInv(p.running, p.hmap, slots) && FinishingInv(finishing, slots) && DoneInv(doneCh, slots)
    requires !done ==> FreshIds(p.hmap, launch)
    ensures var q, slots' := Scan(p, rest, done, launch), ScanSlots(slots, p, rest, done, launch);
            SlotsInv(q.running, q.hmap, slots') && FinishingInv(finishing, slots') && DoneInv(doneCh, slots')
    decreases |rest|
  {
    if rest == [] {
    } else if !done && rest[0].app !in p.running {
      PlaceSlots(p, slots, rest[0], launch);
      PlaceOthers(finishing, doneCh, slots, rest[0], launch);
      hide SlotsInv, FinishingInv, DoneInv;
      assert launch(rest[0]).None? ==> Place(p, rest[0], launch).hmap == p.hmap;
      ScanSlotsInv(Place(p, rest[0], launch), PlaceSlot(slots, rest[0], launch), rest[1..],
                   launch(rest[0]).Some?, launch, finishing, doneCh);
    } else {
      hide SlotsInv, FinishingInv, DoneInv;
      ScanSlotsInv(p.(backlog := p.backlog + [rest[0]]), slots, rest[1..], done, launch, finishing, doneCh);
    }
  }

  /** A scan launches one input, or leaves only inputs that wait for their own application. */
  lemma {:induction false} ScanRunning(p: Pool, rest: seq<HelperInput>, done: bool, launch: Launch)
    requires !done ==> AllRunning(p.backlog, p.running)
    ensures var q := Scan(p, rest, done, launch);
            && (forall x :: x in q.backlog ==> x in p.backlog || x in rest)
            && (done ==> q.running == p.running)
            && (!done ==> || (q.running == p.running && AllRunning(q.backlog, q.running))
                          || exists x :: x in rest && x.app !in p.running && q.running == p.running + {x.app})
    decreases |rest|
  {
    if rest == [] {
    } else if !done && rest[0].app !in p.running {
      ScanRunning(Place(p, rest[0], launch), rest[1..], launch(rest[0]).Some?, launch);
    } else {
      ScanRunning(p.(backlog := p.backlog + [rest[0]]), rest[1..], done, launch);
    }
  }

  lemma {:induction false} ScanKeepsRest(p: Pool, rest: seq<HelperInput>, launch: Launch)
    ensures Scan(p, rest, true, launch) == p.(backlog := p.backlog + rest)
    decreases |rest|
  {
    if rest == [] {
      assert p.backlog + rest == p.backlog;
    } else {
      ScanKeepsRest(p.(backlog := p.backlog + [rest[0]]), rest[1..], launch);
      assert p.backlog + [rest[0]] + rest[1..] == p.backlog + rest;
    }
  }

  function FailedAll(inputs: seq<HelperInput>): (r: seq<HelperResult>)
    ensures |r| == |inputs|
    ensures forall i :: 0 <= i < |r| ==> r[i] == HelperResult(Message(inputs[i].payload), inputs[i])
  {
    seq(|inputs|, i requires 0 <= i < |inputs| => Failed(inputs[i]))
  }

  /** Of the inputs `rest`, the one at `first` is launched, those at `kept` go on waiting, and those at
      `failed` are answered. */
  ghost predicate LaunchesFirst(running: set<string>, rest: seq<HelperInput>, launch: Launch,
                                first: nat, kept: seq<nat>, failed: seq<nat>) {
    && first <= |rest| && Positions(kept, |rest|) && Positions(failed, |rest|)
    && (forall i :: 0 <= i < first ==> rest[i].app in running || launch(rest[i]).None?)
    && (first < |rest| ==> rest[first].app !in running && launch(rest[first]).Some?)
    && (forall i :: 0 <= i < |rest| ==> (i in kept <==> i > first || (i < first && rest[i].app in running)))
    && (forall i :: 0 <= i < |rest| ==> (i in failed <==> i < first && rest[i].app !in running))
  }

  lemma {:induction false} NotYetLaunched(running: set<string>, rest: seq<HelperInput>, launch: Launch,
                                          first: nat, kept: seq<nat>, failed: seq<nat>)
    returns (kept': seq<nat>, failed': seq<nat>)
    requires rest != [] && LaunchesFirst(running, rest[1..], launch, first, kept, failed)
    requires rest[0].app in running || launch(rest[0]).None?
    ensures LaunchesFirst(running, rest, launch, first + 1, kept', failed')
    ensures var waits := rest[0].app in running;
            && Select(rest, kept') == (if waits then [rest[0]] else []) + Select(rest[1..], kept)
            && Select(rest, failed') == (if waits then [] else [rest[0]]) + Select(rest[1..], failed)
  {
    kept' := SelectStep(rest, kept, rest[0].app in running);
    failed' := SelectStep(rest, failed, rest[0].app !in running);
    hide Positions, Select;
  }

  lemma {:induction false} LaunchedNow(running: set<string>, rest: seq<HelperInput>, launch: Launch)
    returns (kept: seq<nat>)
    requires rest != [] && rest[0].app !in running && launch(rest[0]).Some?
    ensures LaunchesFirst(running, rest, launch, 0, kept, []) && Select(rest, kept) == rest[1..]
  {
    var all := SelectAll(rest[1..]);
    kept := SelectStep(rest, all, false);
    hide Select;
  }

  /** The pool `q` after it. */
  ghost predicate Scanned(p: Pool, q: Pool, rest: seq<HelperInput>, launch: Launch, first: nat, kept: seq<nat>,
                          failed: seq<nat>)
    requires LaunchesFirst(p.running, rest, launch, first, kept, failed)
  {
    && q.backlog == p.backlog + Select(rest, kept)
    && q.results == p.results + FailedAll(Select(rest, failed))
    && q.running == p.running + (if first < |rest| then {rest[first].app} else {})
    && q.hmap == if first == |rest| then p.hmap
                 else p.hmap[Uid(rest[first], launch(rest[first]).value) := HelperArgs(rest[first], false)]
  }

  lemma {:induction false} OneMore(a: seq<HelperInput>, x: HelperInput, b: seq<HelperInput>)
    ensures a + [x] + b == a + ([x] + b) && [] + b == b
  {
  }

  lemma {:induction false} OneMoreFails(a: seq<HelperResult>, x: HelperInput, b: seq<HelperInput>)
    ensures a + [Failed(x)] + FailedAll(b) == a + FailedAll([x] + b)
  {
  }

  /** A scan launches the first input whose application does not run and that can be launched.  Inputs
      before it that cannot be launched are answered, and all others go on waiting in order. */
  lemma {:induction false} ScanLaunchesFirst(p: Pool, rest: seq<HelperInput>, launch: Launch)
    returns (first: nat, kept: seq<nat>, failed: seq<nat>)
    ensures LaunchesFirst(p.running, rest, launch, first, kept, failed)
    ensures Scanned(p, Scan(p, rest, false, launch), rest, launch, first, kept, failed)
    decreases |rest|
  {
    if rest == [] {
      first, kept, failed := 0, [], [];
    } else if rest[0].app in p.running || launch(rest[0]).None? {
      first, kept, failed := ScanLaunchesLater(p, rest, launch);
    } else {
      ScanKeepsRest(Place(p, rest[0], launch), rest[1..], launch);
      first, failed := 0, [];
      kept := LaunchedNow(p.running, rest, launch);
      hide LaunchesFirst;
    }
  }

  lemma {:induction false} ScanLaunchesLater(p: Pool, rest: seq<HelperInput>, launch: Launch)
    returns (first: nat, kept: seq<nat>, failed: seq<nat>)
    requires rest != [] && (rest[0].app in p.running || launch(rest[0]).None?)
    ensures LaunchesFirst(p.running, rest, launch, first, kept, failed)
    ensures Scanned(p, Scan(p, rest, false, launch), rest, launch, first, kept, failed)
    decreases |rest|, 0
  {
    var x, more := rest[0], rest[1..];
    var p' := if x.app in p.running then p.(backlog := p.backlog + [x]) else Place(p, x, launch);
    var at, keptMore, failedMore := ScanLaunchesFirst(p', more, launch);
    kept, failed := NotYetLaunched(p.running, rest, launch, at, keptMore, failedMore);
    first := at + 1;
    assert Scan(p, rest, false, launch) == Scan(p', more, false, launch);
    hide Scan, FailedAll;
    OneMore(p.backlog, x, Select(more, keptMore));
    OneMore([], x, Select(more, failedMore));
    OneMoreFails(p.results, x, Select(more, failedMore));
  }

  /** What is accounted for of an application in the middle of a scan. */
  ghost function Account(p: Pool, slots: map<string, Slot>, rest: seq<HelperInput>, app: string)
    : (r: seq<HelperInput>)
  {
    AnsweredOf(p.results, app) + InFlight(slots, app) + Of(p.backlog, app) + Of(rest, app)
  }

  lemma {:induction false} PlaceAccount(p: Pool, slots: map<string, Slot>, rest: seq<HelperInput>, launch: Launch,
                                        app: string)
    requires p.running == slots.Keys && rest != [] && rest[0].app !in p.running && AllRunning(p.backlog, p.running)
    ensures Account(Place(p, rest[0], launch), PlaceSlot(slots, rest[0], launch), rest[1..], app) ==
            Account(p, slots, rest, app)
  {
    var input := rest[0];
    OfPop(rest, app);
    PlaceOrder(p, slots, input, launch, app);
    if input.app == app {
      OfNone(p.backlog, app);
    }
    hide AnsweredOf, Of, InFlight;
    var q, slots' := Place(p, input, launch), PlaceSlot(slots, input, launch);
    assert q.backlog == p.backlog;
    Shift(AnsweredOf(p.results, app) + InFlight(slots, app), AnsweredOf(q.results, app) + InFlight(slots', app),
          One(input, app), Of(p.backlog, app), Of(rest[1..], app));
  }

  lemma {:induction false} KeepAccount(p: Pool, slots: map<string, Slot>, rest: seq<HelperInput>, app: string)
    requires rest != []
    ensures Account(p.(backlog := p.backlog + [rest[0]]), slots, rest[1..], app) == Account(p, slots, rest, app)
  {
    OfPop(rest, app);
    OfPush(p.backlog, rest[0], app);
    hide AnsweredOf, Of, InFlight, One;
    Regroup(AnsweredOf(p.results, app) + InFlight(slots, app), Of(p.backlog, app), One(rest[0], app), Of(rest[1..],
        app));
  }

  lemma {:induction false} ScanAccount(p: Pool, slots: map<string, Slot>, rest: seq<HelperInput>, done: bool,
                                       launch: Launch,
                                       app: string)
    requires p.running == slots.Keys
    requires !done ==> AllRunning(p.backlog, p.running)
    ensures Account(Scan(p, rest, done, launch), ScanSlots(slots, p, rest, done, launch), [], app) ==
            Account(p, slots, rest, app)
    decreases |rest|
  {
    hide Account;
    if rest == [] {
    } else if !done && rest[0].app !in p.running {
      PlaceAccount(p, slots, rest, launch, app);
      ScanAccount(Place(p, rest[0], launch), PlaceSlot(slots, rest[0], launch), rest[1..],
                  launch(rest[0]).Some?, launch, app);
    } else {
      KeepAccount(p, slots, rest, app);
      ScanAccount(p.(backlog := p.backlog + [rest[0]]), slots, rest[1..], done, launch, app);
    }
  }

  // ----- The steps -----------------------------------------------------------------------------

  lemma {:induction false} RunOrder(s: State, input: HelperInput, app: string)
    requires OrderInv(s, app)
    ensures OrderInv(Do(s, Run(input)), app)
  {
    OfPush(s.queue, input, app);
    OfPush(s.submitted, input, app);
    hide AnsweredOf, Of, InFlight, One;
    var before := AnsweredOf(s.pool.results, app) + InFlight(s.slots, app) + Of(s.pool.backlog, app);
    assert before + (Of(s.queue, app) + One(input, app)) == before + Of(s.queue, app) + One(input, app);
  }

  lemma {:induction false} RunKeeps(s: State, input: HelperInput)
    requires Inv(s)
    ensures Inv(Do(s, Run(input)))
  {
    forall a
      ensures OrderInv(Do(s, Run(input)), a)
    {
      RunOrder(s, input, a);
    }
    hide OrderInv, SlotsInv, FinishingInv, DoneInv, WorkConserving;
  }

  lemma {:induction false} TakeInputOrder(s: State, launch: Launch, app: string)
    requires Inv(s) && Enabled(s, TakeInput(launch))
    ensures OrderInv(Do(s, TakeInput(launch)), app)
  {
    var input := s.queue[0];
    assert OrderInv(s, app);
    if |s.pool.running| >= s.maxNum || input.app in s.pool.running {
      KeepAccount(s.pool, s.slots, s.queue, app);
    } else {
      PlaceAccount(s.pool, s.slots, s.queue, launch, app);
    }
    hide AnsweredOf, Of, InFlight, Inv, PlaceSlot, Place;
  }

  lemma {:induction false} TakeInputKeeps(s: State, launch: Launch)
    requires Inv(s) && Enabled(s, TakeInput(launch))
    ensures Inv(Do(s, TakeInput(launch)))
  {
    var t, input := Do(s, TakeInput(launch)), s.queue[0];
    forall a
      ensures OrderInv(t, a)
    {
      TakeInputOrder(s, launch, a);
    }
    if !(|s.pool.running| >= s.maxNum || input.app in s.pool.running) {
      PlaceSlots(s.pool, s.slots, input, launch);
      PlaceOthers(s.finishing, s.doneCh, s.slots, input, launch);
    }
    hide OrderInv, SlotsInv, FinishingInv, DoneInv;
  }

  lemma {:induction false} ReleaseDone(doneCh: seq<string>, slots: map<string, Slot>, i: nat)
    requires DoneInv(doneCh, slots) && i < |doneCh|
    ensures DoneInv(Remove(doneCh, i), slots - {doneCh[i]})
  {
    var app, rest := doneCh[i], Remove(doneCh, i);
    forall a | a in slots - {app} && slots[a].Answered?
      ensures a in rest
    {
      var k :| 0 <= k < |doneCh| && doneCh[k] == a;
      assert rest[if k < i then k else k - 1] == a;
    }
  }

  /** The slot of a reported application is free. */
  lemma {:induction false} Release(s: State, i: nat)
    requires Inv(s) && i < |s.doneCh|
    ensures var app := s.doneCh[i];
            && app in s.pool.running
            && SlotsInv(s.pool.running - {app}, s.pool.hmap, s.slots - {app})
            && FinishingInv(s.finishing, s.slots - {app})
            && DoneInv(Remove(s.doneCh, i), s.slots - {app})
  {
    hide OrderInv;
    ReleaseDone(s.doneCh, s.slots, i);
    hide FinishingInv, Distinct, WorkConserving;
  }

  lemma {:induction false} TakeDoneRunning(s: State, i: nat, launch: Launch)
    requires Inv(s) && Enabled(s, TakeDone(i, launch))
    ensures var q := Do(s, TakeDone(i, launch)).pool;
            |q.running| <= s.maxNum && WorkConserving(q, s.maxNum)
  {
    Release(s, i);
    var app := s.doneCh[i];
    var p := s.pool.(running := s.pool.running - {app}, backlog := []);
    ScanRunning(p, s.pool.backlog, false, launch);
    hide OrderInv, SlotsInv, FinishingInv, DoneInv, Scan, ScanSlots;
    var q := Do(s, TakeDone(i, launch)).pool;
    if !(q.running == p.running && AllRunning(q.backlog, q.running)) {
      var x :| x in s.pool.backlog && x.app !in p.running && q.running == p.running + {x.app};
      assert |q.running| == |s.pool.running|;
      if |s.pool.running| < s.maxNum {
        assert x.app == app;
        assert q.running == s.pool.running;
        forall k | 0 <= k < |q.backlog|
          ensures q.backlog[k].app in q.running
        {
          assert q.backlog[k] in s.pool.backlog;
        }
      }
    }
  }

  lemma {:induction false} TakeDoneOrder(s: State, i: nat, launch: Launch, app: string)
    requires Inv(s) && Enabled(s, TakeDone(i, launch))
    ensures OrderInv(Do(s, TakeDone(i, launch)), app)
  {
    Release(s, i);
    var done := s.doneCh[i];
    var p := s.pool.(running := s.pool.running - {done}, backlog := []);
    assert OrderInv(s, app);
    ScanAccount(p, s.slots - {done}, s.pool.backlog, false, launch, app);
    assert InFlight(s.slots - {done}, app) == InFlight(s.slots, app);
    assert Of([], app) == [];
    hide AnsweredOf, Of, InFlight, Scan, ScanSlots, Inv;
    var q, slots' := AfterDone(s.pool, done, launch), ScanSlots(s.slots - {done}, p, s.pool.backlog, false, launch);
    assert Account(q, slots', [], app) == AnsweredOf(q.results, app) + InFlight(slots', app) + Of(q.backlog, app);
    assert Account(p, s.slots - {done}, s.pool.backlog, app) ==
           AnsweredOf(s.pool.results, app) + InFlight(s.slots, app) + Of(s.pool.backlog, app);
  }

  lemma {:induction false} TakeDoneKeeps(s: State, i: nat, launch: Launch)
    requires Inv(s) && Enabled(s, TakeDone(i, launch))
    ensures Inv(Do(s, TakeDone(i, launch)))
  {
    Release(s, i);
    TakeDoneRunning(s, i, launch);
    var t, app := Do(s, TakeDone(i, launch)), s.doneCh[i];
    forall a
      ensures OrderInv(t, a)
    {
      TakeDoneOrder(s, i, launch, a);
    }
    hide OrderInv, SlotsInv, FinishingInv, DoneInv, Scan, ScanSlots, WorkConserving;
    ScanSlotsInv(s.pool.(running := s.pool.running - {app}, backlog := []), s.slots - {app}, s.pool.backlog, false,
                 launch, s.finishing, Remove(s.doneCh, i));
  }

  /** The order depends on what is answered, in flight, waiting, queued and submitted. */
  lemma {:induction false} OrderFrame(s: State, t: State, app: string)
    requires OrderInv(s, app)
    requires t.pool.backlog == s.pool.backlog && t.queue == s.queue && t.submitted == s.submitted
    requires AnsweredOf(t.pool.results, app) + InFlight(t.slots, app) ==
             AnsweredOf(s.pool.results, app) + InFlight(s.slots, app)
    ensures OrderInv(t, app)
  {
    hide AnsweredOf, Of, InFlight;
  }

  lemma {:induction false} ForceStopSlots(running: set<string>, hmap: map<string, HelperArgs>, slots: map<string, Slot>,
                                          uid: string)
    requires SlotsInv(running, hmap, slots) && uid in hmap
    ensures SlotsInv(running, hmap[uid := hmap[uid].(forcedStop := true)], slots)
  {
  }

  lemma {:induction false} TakeOutSlots(running: set<string>, hmap: map<string, HelperArgs>, slots: map<string, Slot>,
                                        uid: string)
    requires SlotsInv(running, hmap, slots) && uid in hmap
    ensures var input := hmap[uid].input;
            SlotsInv(running, hmap - {uid}, slots[input.app := Finishing(input)])
  {
  }

  lemma {:induction false} AnswerSlots(running: set<string>, hmap: map<string, HelperArgs>, slots: map<string, Slot>,
                                       app: string)
    requires SlotsInv(running, hmap, slots) && app in slots && slots[app].Finishing?
    ensures SlotsInv(running, hmap, slots[app := Answered])
  {
  }

  lemma {:induction false} StillDone(doneCh: seq<string>, slots: map<string, Slot>, app: string, input: HelperInput)
    requires DoneInv(doneCh, slots) && app in slots && slots[app].Launched?
    ensures DoneInv(doneCh, slots[app := Finishing(input)])
  {
  }

  lemma {:induction false} ForceStopKeeps(s: State, uid: string)
    requires Inv(s)
    ensures Inv(Do(s, ForceStop(uid)))
  {
    forall a
      ensures OrderInv(Do(s, ForceStop(uid)), a)
    {
      OrderFrame(s, Do(s, ForceStop(uid)), a);
    }
    if uid in s.pool.hmap {
      ForceStopSlots(s.pool.running, s.pool.hmap, s.slots, uid);
    }
    hide OrderInv, SlotsInv, FinishingInv, DoneInv;
  }

  lemma {:induction false} TakeOutKeeps(s: State, uid: string)
    requires Inv(s) && Enabled(s, TakeOut(uid))
    ensures Inv(Do(s, TakeOut(uid)))
  {
    var t, args := Do(s, TakeOut(uid)), s.pool.hmap[uid];
    forall a
      ensures OrderInv(t, a)
    {
      OrderFrame(s, t, a);
    }
    hide OrderInv;
    TakeOutFinishing(s, uid);
    TakeOutSlots(s.pool.running, s.pool.hmap, s.slots, uid);
    StillDone(s.doneCh, s.slots, args.input.app, args.input);
    hide SlotsInv, FinishingInv, DoneInv, WorkConserving;
  }

  lemma {:induction false} TakeOutFinishing(s: State, uid: string)
    requires SlotsInv(s.pool.running, s.pool.hmap, s.slots) && uid in s.pool.hmap
    requires FinishingInv(s.finishing, s.slots)
    ensures FinishingInv(Do(s, TakeOut(uid)).finishing, Do(s, TakeOut(uid)).slots)
  {
    var t, args := Do(s, TakeOut(uid)), s.pool.hmap[uid];
    forall a | a in t.slots && t.slots[a].Finishing?
      ensures exists i :: 0 <= i < |t.finishing| && t.finishing[i].input == t.slots[a].input
    {
      if a == args.input.app {
        assert t.finishing[|s.finishing|].input == t.slots[a].input;
      } else {
        var i :| 0 <= i < |s.finishing| && s.finishing[i].input == s.slots[a].input;
        assert t.finishing[i].input == t.slots[a].input;
      }
    }
  }

  lemma {:induction false} FinishFinishing(s: State, i: nat, output: Option<string>)
    requires FinishingInv(s.finishing, s.slots) && i < |s.finishing|
    requires forall a :: a in s.slots && s.slots[a].Finishing? ==> s.slots[a].input.app == a
    ensures FinishingInv(Do(s, Finish(i, output)).finishing, Do(s, Finish(i, output)).slots)
  {
    var t, app := Do(s, Finish(i, output)), s.finishing[i].input.app;
    forall a | a in t.slots && t.slots[a].Finishing?
      ensures exists k :: 0 <= k < |t.finishing| && t.finishing[k].input == t.slots[a].input
    {
      var k :| 0 <= k < |s.finishing| && s.finishing[k].input == s.slots[a].input;
      assert k != i;
      assert t.finishing[if k < i then k else k - 1].input == t.slots[a].input;
    }
  }

  lemma {:induction false} FinishDone(s: State, i: nat, output: Option<string>)
    requires FinishingInv(s.finishing, s.slots) && DoneInv(s.doneCh, s.slots) && i < |s.finishing|
    ensures DoneInv(Do(s, Finish(i, output)).doneCh, Do(s, Finish(i, output)).slots)
  {
    var t, app := Do(s, Finish(i, output)), s.finishing[i].input.app;
    assert t.doneCh[|s.doneCh|] == app;
    assert app !in s.doneCh;
  }

  lemma {:induction false} FinishOrder(s: State, i: nat, output: Option<string>, app: string)
    requires Inv(s) && Enabled(s, Finish(i, output))
    ensures OrderInv(Do(s, Finish(i, output)), app)
  {
    var t, args := Do(s, Finish(i, output)), s.finishing[i];
    AnsweredPush(s.pool.results, Answer(args, output), app);
    assert InFlight(s.slots, app) == One(args.input, app) + InFlight(t.slots, app);
    assert args.input.app == app ==> InFlight(t.slots, app) == [];
    hide Inv, AnsweredOf, InFlight;
    assert OrderInv(s, app);
    OrderFrame(s, t, app);
  }

  lemma {:induction false} FinishKeeps(s: State, i: nat, output: Option<string>)
    requires Inv(s) && Enabled(s, Finish(i, output))
    ensures Inv(Do(s, Finish(i, output)))
  {
    var t, args := Do(s, Finish(i, output)), s.finishing[i];
    forall a
      ensures OrderInv(t, a)
    {
      FinishOrder(s, i, output, a);
    }
    hide OrderInv;
    FinishFinishing(s, i, output);
    FinishDone(s, i, output);
    AnswerSlots(s.pool.running, s.pool.hmap, s.slots, args.input.app);
    hide SlotsInv, FinishingInv, DoneInv, WorkConserving;
  }

  lemma {:induction false} StepKeeps(s: State, step: Step)
    requires Inv(s) && Enabled(s, step)
    ensures Inv(Do(s, step))
  {
    hide Inv, Do;
    match step
    case Run(input) => RunKeeps(s, input);
    case TakeInput(launch) => TakeInputKeeps(s, launch);
    case TakeDone(i, launch) => TakeDoneKeeps(s, i, launch);
    case ForceStop(uid) => ForceStopKeeps(s, uid);
    case TakeOut(uid) => TakeOutKeeps(s, uid);
    case Finish(i, output) => FinishKeeps(s, i, output);
  }

  // ----- Theorems about runs -------------------------------------------------------------------

  lemma {:induction false} InvAlong(run: seq<State>, steps: seq<Step>, maxNum: nat, i: nat)
    requires IsRun(run, steps, maxNum) && i < |run|
    ensures Inv(run[i]) && run[i].maxNum == maxNum
    decreases i
  {
    if i == 0 {
      InitInv(maxNum);
    } else {
      InvAlong(run, steps, maxNum, i - 1);
      assert run[i] == Do(run[i - 1], steps[i - 1]);
      StepKeeps(run[i - 1], steps[i - 1]);
      hide Inv, Enabled;
    }
  }

  lemma {:induction false} InitInv(maxNum: nat)
    ensures Inv(Init(maxNum))
  {
  }

  /** Everything submitted for an application is answered, in flight, waiting or queued: each input
      exactly once, and in that order.  So there is one answer an input at most, and the answers come
      in the order of submission. */
  lemma {:induction false} InOrderAndOnce(run: seq<State>, steps: seq<Step>, maxNum: nat, i: nat, app: string)
    requires IsRun(run, steps, maxNum) && i < |run|
    ensures var s := run[i];
            && Of(s.submitted, app) ==
               AnsweredOf(s.pool.results, app) + InFlight(s.slots, app) + Of(s.pool.backlog, app) + Of(s.queue, app)
            && AnsweredOf(s.pool.results, app) <= Of(s.submitted, app)
  {
    InvAlong(run, steps, maxNum, i);
    assert OrderInv(run[i], app);
    hide AnsweredOf, Of, InFlight;
  }

  /** The input in flight of an application is that of its launched helper, or of the one helper of it
      that is being answered. */
  lemma {:induction false} InFlightIsHeld(run: seq<State>, steps: seq<Step>, maxNum: nat, i: nat, app: string)
    requires IsRun(run, steps, maxNum) && i < |run|
    ensures var s := run[i];
            var held := (set uid | uid in s.pool.hmap && s.pool.hmap[uid].input.app == app :: s.pool.hmap[uid].input)
                        + (set k | 0 <= k < |s.finishing| && s.finishing[k].input.app == app :: s.finishing[k].input);
            held == set x | x in InFlight(s.slots, app)
  {
    InvAlong(run, steps, maxNum, i);
    hide OrderInv, DoneInv;
  }

  /** No place is idle while an input waits that could have it: all places are taken, or the
      application of every waiting input is running. */
  lemma {:induction false} NoIdlePlace(run: seq<State>, steps: seq<Step>, maxNum: nat, i: nat)
    requires IsRun(run, steps, maxNum) && i < |run|
    ensures var p := run[i].pool;
            |p.running| == maxNum || forall k :: 0 <= k < |p.backlog| ==> p.backlog[k].app in p.running
  {
    InvAlong(run, steps, maxNum, i);
    hide OrderInv, SlotsInv, FinishingInv, DoneInv;
  }

  lemma {:induction false} NoMoreKeys(hmap: map<string, HelperArgs>, uids: set<string>, running: set<string>)
    requires uids <= hmap.Keys
    requires forall uid :: uid in uids ==> hmap[uid].input.app in running
    requires forall a, b :: a in uids && b in uids && a != b ==> hmap[a].input.app != hmap[b].input.app
    ensures |uids| <= |running|
    decreases |uids|
  {
    if uids != {} {
      var uid :| uid in uids;
      NoMoreKeys(hmap, uids - {uid}, running - {hmap[uid].input.app});
    }
  }

  /** At most `maxNum` helpers are launched, and at most one of an application. */
  lemma {:induction false} LaunchesAreBounded(run: seq<State>, steps: seq<Step>, maxNum: nat, i: nat)
    requires IsRun(run, steps, maxNum) && i < |run|
    ensures var hmap := run[i].pool.hmap;
            && |hmap| <= maxNum
            && forall a, b :: a in hmap && b in hmap && a != b ==> hmap[a].input.app != hmap[b].input.app
  {
    InvAlong(run, steps, maxNum, i);
    hide OrderInv, FinishingInv, DoneInv;
    var p := run[i].pool;
    NoMoreKeys(p.hmap, p.hmap.Keys, p.running);
  }

  /** When no helper is left and nothing is queued, every input has been answered. */
  lemma {:induction false} IdleMeansAnswered(run: seq<State>, steps: seq<Step>, maxNum: nat, i: nat, app: string)
    requires IsRun(run, steps, maxNum) && i < |run| && maxNum > 0
    requires run[i].queue == [] && run[i].pool.hmap == map[] && run[i].finishing == [] && run[i].doneCh == []
    ensures run[i].pool.backlog == []
    ensures AnsweredOf(run[i].pool.results, app) == Of(run[i].submitted, app)
  {
    InvAlong(run, steps, maxNum, i);
    var s := run[i];
    assert s.slots.Keys == {} by {
      if a :| a in s.slots {
        hide OrderInv;
        assert false;
      }
    }
    assert OrderInv(s, app);
  }

  /** A helper that was stopped while in the table is still marked so, or its input was answered with
      the payload. */
  ghost predicate Stopped(s: State, uid: string, input: HelperInput) {
    || (uid in s.pool.hmap && s.pool.hmap[uid] == HelperArgs(input, true))
    || HelperArgs(input, true) in s.finishing
    || Failed(input) in s.pool.results
  }

  /** What a scan puts into the table has not been stopped, and the rest of the table stays. */
  lemma {:induction false} ScanTable(p: Pool, rest: seq<HelperInput>, done: bool, launch: Launch, uid: string)
    requires !done ==> FreshIds(p.hmap, launch)
    ensures var q := Scan(p, rest, done, launch);
            && (uid in p.hmap ==> uid in q.hmap && q.hmap[uid] == p.hmap[uid])
            && (uid in q.hmap && uid !in p.hmap ==> !q.hmap[uid].forcedStop)
    decreases |rest|
  {
    if rest == [] {
    } else if !done && rest[0].app !in p.running {
      ScanTable(Place(p, rest[0], launch), rest[1..], launch(rest[0]).Some?, launch, uid);
    } else {
      ScanTable(p.(backlog := p.backlog + [rest[0]]), rest[1..], done, launch, uid);
    }
  }

  lemma {:induction false} ScanKeepsResults(p: Pool, rest: seq<HelperInput>, done: bool, launch: Launch)
    ensures p.results <= Scan(p, rest, done, launch).results
    decreases |rest|
  {
    if rest == [] {
    } else if !done && rest[0].app !in p.running {
      ScanKeepsResults(Place(p, rest[0], launch), rest[1..], launch(rest[0]).Some?, launch);
    } else {
      ScanKeepsResults(p.(backlog := p.backlog + [rest[0]]), rest[1..], done, launch);
    }
  }

  lemma {:induction false} RemoveKeepsOthers<T>(s: seq<T>, i: nat, x: T)
    requires i < |s| && x in s && x != s[i]
    ensures x in Remove(s, i)
  {
    var k :| 0 <= k < |s| && s[k] == x;
    assert Remove(s, i)[if k < i then k else k - 1] == x;
  }

  lemma {:induction false} StepKeepsStopped(s: State, step: Step, uid: string, input: HelperInput)
    requires Enabled(s, step) && Stopped(s, uid, input)
    ensures Stopped(Do(s, step), uid, input)
  {
    match step
    case TakeDone(i, launch) =>
      var p := s.pool.(running := s.pool.running - {s.doneCh[i]}, backlog := []);
      ScanKeepsResults(p, s.pool.backlog, false, launch);
      if uid in s.pool.hmap {
        ScanTable(p, s.pool.backlog, false, launch, uid);
      }
      hide Scan, ScanSlots;
    case Finish(i, output) =>
      var x := HelperArgs(input, true);
      if x in s.finishing && x != s.finishing[i] {
        RemoveKeepsOthers(s.finishing, i, x);
      }
    case _ =>
  }

  /** Whatever it puts out, a helper that the timer stopped is answered with the payload of its input. */
  lemma {:induction false} StoppedIsAnsweredByPayload(run: seq<State>, steps: seq<Step>, maxNum: nat, i: nat, j: nat,
                                                      uid: string)
    requires IsRun(run, steps, maxNum) && i < j < |run|
    requires steps[i] == ForceStop(uid) && uid in run[i].pool.hmap
    ensures Stopped(run[j], uid, run[i].pool.hmap[uid].input)
    decreases j
  {
    assert run[i + 1] == Do(run[i], steps[i]);
    if i + 1 < j {
      StoppedIsAnsweredByPayload(run, steps, maxNum, i, j - 1, uid);
      assert run[j] == Do(run[j - 1], steps[j - 1]);
      hide Do, Enabled, Stopped;
      StepKeepsStopped(run[j - 1], steps[j - 1], uid, run[i].pool.hmap[uid].input);
    }
  }

  // ----- What an answer holds ------------------------------------------------------------------

  /** The timer has stopped the helper of the instance that is in the table at `run[i]`. */
  ghost predicate StoppedBefore(run: seq<State>, steps: seq<Step>, uid: string, i: nat)
    requires i < |run| && |run| == |steps| + 1
  {
    exists j :: 0 <= j < i && steps[j] == ForceStop(uid) && InTable(run, uid, j, i)
  }

  ghost predicate InTable(run: seq<State>, uid: string, from: nat, to: nat)
    requires from <= to < |run|
  {
    forall k :: from <= k <= to ==> uid in run[k].pool.hmap
  }

  lemma {:induction false} InTableOneMore(run: seq<State>, uid: string, from: nat, to: nat)
    requires from <= to < |run| - 1
    ensures InTable(run, uid, from, to + 1) <==> InTable(run, uid, from, to) && uid in run[to + 1].pool.hmap
  {
  }

  lemma {:induction false} StoppedOneMore(run: seq<State>, steps: seq<Step>, uid: string, i: nat)
    requires |run| == |steps| + 1 && i < |steps| && uid in run[i + 1].pool.hmap
    ensures StoppedBefore(run, steps, uid, i + 1) <==>
            uid in run[i].pool.hmap && (steps[i] == ForceStop(uid) || StoppedBefore(run, steps, uid, i))
  {
    hide InTable;
    forall j | 0 <= j <= i
      ensures InTable(run, uid, j, i + 1) <==> InTable(run, uid, j, i)
    {
      InTableOneMore(run, uid, j, i);
    }
    assert InTable(run, uid, i, i) <==> uid in run[i].pool.hmap by {
      InTableOneself(run, uid, i);
    }
    if StoppedBefore(run, steps, uid, i + 1) {
      var j :| 0 <= j < i + 1 && steps[j] == ForceStop(uid) && InTable(run, uid, j, i + 1);
      InTableAt(run, uid, j, i);
    }
    if StoppedBefore(run, steps, uid, i) {
      var j :| 0 <= j < i && steps[j] == ForceStop(uid) && InTable(run, uid, j, i);
      assert InTable(run, uid, j, i + 1);
    }
  }

  lemma {:induction false} InTableOneself(run: seq<State>, uid: string, i: nat)
    requires i < |run|
    ensures InTable(run, uid, i, i) <==> uid in run[i].pool.hmap
  {
  }

  lemma {:induction false} InTableAt(run: seq<State>, uid: string, from: nat, to: nat)
    requires from <= to < |run| && InTable(run, uid, from, to)
    ensures uid in run[to].pool.hmap
  {
  }

  /** In the table only a stop marks a helper, and nothing else changes about it. */
  lemma {:induction false} StepTable(s: State, step: Step, uid: string)
    requires Enabled(s, step) && uid in Do(s, step).pool.hmap
    ensures var args := Do(s, step).pool.hmap[uid];
            if uid !in s.pool.hmap then !args.forcedStop
            else args == if step == ForceStop(uid) then s.pool.hmap[uid].(forcedStop := true) else s.pool.hmap[uid]
  {
    match step
    case TakeDone(i, launch) =>
      var p := s.pool.(running := s.pool.running - {s.doneCh[i]}, backlog := []);
      ScanTable(p, s.pool.backlog, false, launch, uid);
      hide Scan, ScanSlots;
    case _ =>
  }

  /** A helper in the table is marked as stopped if and only if its timer has stopped it. */
  lemma {:induction false} MarkedIffStopped(run: seq<State>, steps: seq<Step>, maxNum: nat, i: nat, uid: string)
    requires IsRun(run, steps, maxNum) && i < |run| && uid in run[i].pool.hmap
    ensures run[i].pool.hmap[uid].forcedStop <==> StoppedBefore(run, steps, uid, i)
    decreases i
  {
    if i > 0 {
      assert run[i] == Do(run[i - 1], steps[i - 1]);
      StepTable(run[i - 1], steps[i - 1], uid);
      StoppedOneMore(run, steps, uid, i - 1);
      if uid in run[i - 1].pool.hmap {
        MarkedIffStopped(run, steps, maxNum, i - 1, uid);
      }
      hide Do, Enabled, StoppedBefore;
    }
  }

  /** What is being answered was taken out of the table. */
  lemma {:induction false} WasTakenOut(run: seq<State>, steps: seq<Step>, maxNum: nat, j: nat, k: nat)
    returns (i: nat, uid: string)
    requires IsRun(run, steps, maxNum) && j < |run| && k < |run[j].finishing|
    ensures i < j && steps[i] == TakeOut(uid)
    ensures uid in run[i].pool.hmap && run[i].pool.hmap[uid] == run[j].finishing[k]
    decreases j
  {
    var s := run[j - 1];
    assert run[j] == Do(s, steps[j - 1]);
    match steps[j - 1]
    case TakeOut(id) =>
      if k == |s.finishing| {
        i, uid := j - 1, id;
      } else {
        i, uid := WasTakenOut(run, steps, maxNum, j - 1, k);
      }
    case Finish(f, _) =>
      i, uid := WasTakenOut(run, steps, maxNum, j - 1, if k < f then k else k + 1);
    case _ =>
      i, uid := WasTakenOut(run, steps, maxNum, j - 1, k);
  }

  /** Each answer is that of a helper that was taken out of the table, and to its input: from the output of
      the helper if that could be parsed and the timer had not stopped it, and otherwise the payload. */
  lemma {:induction false} AnswerIsOutput(run: seq<State>, steps: seq<Step>, maxNum: nat, j: nat, k: nat,
                                          output: Option<string>) returns (i: nat, uid: string)
    requires IsRun(run, steps, maxNum) && j < |steps| && steps[j] == Finish(k, output)
    ensures i < j && steps[i] == TakeOut(uid) && uid in run[i].pool.hmap
    ensures var input := run[i].pool.hmap[uid].input;
            var answer := if output.Some? && !StoppedBefore(run, steps, uid, i) then Parsed(output.value)
                          else Message(input.payload);
            run[j + 1].pool.results == run[j].pool.results + [HelperResult(answer, input)]
  {
    assert Enabled(run[j], steps[j]) && run[j + 1] == Do(run[j], steps[j]);
    i, uid := WasTakenOut(run, steps, maxNum, j, k);
    MarkedIffStopped(run, steps, maxNum, i, uid);
    hide StoppedBefore, IsRun;
  }
}
