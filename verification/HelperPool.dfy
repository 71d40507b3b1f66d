/** The helper pool of launch_helper/kindpool.go: at most `maxNum` helpers run at a time, at most one
    for an application, and inputs that have to wait are kept in a backlog.

    Launching is outside of the model: `launch` tells of an input the instance id that its launcher
    gives it, or that it cannot be launched.  An input is tried once, so any outcome is possible. */
module HelperPool {
  import opened Sequences

  /** `id` is the identity of the input. */
  datatype HelperInput = HelperInput(id: nat, kind: string, app: string, payload: string)

  datatype HelperOutput = Message(payload: string) | Parsed(text: string)

  datatype HelperResult = HelperResult(output: HelperOutput, input: HelperInput)

  datatype HelperArgs = HelperArgs(input: HelperInput, forcedStop: bool)

  type Launch = HelperInput -> Option<string>

  /** The state of the loop with the backlog as the list of waiting inputs. */
  datatype Pool = Pool(running: set<string>, backlog: seq<HelperInput>, hmap: map<string, HelperArgs>,
                       results: seq<HelperResult>)

  function Uid(input: HelperInput, iid: string): (r: string) {
    input.kind + ":" + iid
  }

  /** Kinds have no colon, so helpers of different launchers do not share an id. */
  lemma {:induction false} UidsDiffer(a: HelperInput, i: string, b: HelperInput, j: string)
    requires ':' !in a.kind && ':' !in b.kind && Uid(a, i) == Uid(b, j)
    ensures a.kind == b.kind && i == j
  {
    var u, v := Uid(a, i), Uid(b, j);
    assert u[|a.kind|] == ':' && v[|b.kind|] == ':';
    assert u[..|a.kind|] == a.kind && v[..|b.kind|] == b.kind;
    assert forall k :: 0 <= k < |a.kind| ==> u[k] == a.kind[k];
    assert forall k :: 0 <= k < |b.kind| ==> v[k] == b.kind[k];
    assert u[|a.kind| + 1..] == i && v[|b.kind| + 1..] == j;
  }

  function Failed(input: HelperInput): (r: HelperResult) {
    HelperResult(Message(input.payload), input)
  }

  /** Launches the input, or answers it when that fails. */
  function Place(p: Pool, input: HelperInput, launch: Launch): (r: Pool) {
    match launch(input)
    case None => p.(results := p.results + [Failed(input)])
    case Some(iid) =>
      p.(hmap := p.hmap[Uid(input, iid) := HelperArgs(input, false)], running := p.running + {input.app})
  }

  function AfterInput(p: Pool, maxNum: nat, input: HelperInput, launch: Launch): (r: Pool) {
    if |p.running| >= maxNum || input.app in p.running then p.(backlog := p.backlog + [input])
    else Place(p, input, launch)
  }

  /** Goes over the inputs `rest` up to the first that is launched; `p.backlog` has those kept so far. */
  function Scan(p: Pool, rest: seq<HelperInput>, done: bool, launch: Launch): (r: Pool)
    decreases |rest|
  {
    if rest == [] then p
    else if !done && rest[0].app !in p.running then
      Scan(Place(p, rest[0], launch), rest[1..], launch(rest[0]).Some?, launch)
    else Scan(p.(backlog := p.backlog + [rest[0]]), rest[1..], done, launch)
  }

  function AfterDone(p: Pool, app: string, launch: Launch): (r: Pool) {
    Scan(p.(running := p.running - {app}, backlog := []), p.backlog, false, launch)
  }

  /** What the output of a finished helper amounts to; `output` is its text if it can be read and parsed. */
  function Answer(args: HelperArgs, output: Option<string>): (r: HelperResult) {
    if !args.forcedStop && output.Some? then HelperResult(Parsed(output.value), args.input) else Failed(args.input)
  }

  lemma {:induction false} ScanStep(p: Pool, input: HelperInput, rest: seq<HelperInput>, done: bool, launch: Launch)
    ensures Scan(p, [input] + rest, done, launch) ==
            if !done && input.app !in p.running then Scan(Place(p, input, launch), rest, launch(input).Some?, launch)
            else Scan(p.(backlog := p.backlog + [input]), rest, done, launch)
  {
    assert ([input] + rest)[1..] == rest;
  }

  lemma {:induction false} ScanNone(p: Pool, done: bool, launch: Launch)
    ensures Scan(p, [], done, launch) == p
  {
  }

  // ----- The backlog with holes ----------------------------------------------------------------

  /** The entries of a slice that are not nil, in order. */
  function Compact(entries: seq<Option<HelperInput>>): (r: seq<HelperInput>)
    ensures |r| <= |entries|
  {
    if entries == [] then []
    else Compact(entries[..|entries| - 1]) + match entries[|entries| - 1] case None => [] case Some(input) => [input]
  }

  function Somes(inputs: seq<HelperInput>): (r: seq<Option<HelperInput>>)
    ensures |r| == |inputs| && forall k :: 0 <= k < |r| ==> r[k] == Some(inputs[k])
  {
    seq(|inputs|, k requires 0 <= k < |inputs| => Some(inputs[k]))
  }

  /** The inputs are those of the entries that are not nil, in their order. */
  lemma {:induction false} CompactIff(entries: seq<Option<HelperInput>>) returns (at: seq<nat>)
    ensures Positions(at, |entries|) && Somes(Compact(entries)) == Select(entries, at)
    ensures forall i :: 0 <= i < |entries| ==> (i in at <==> entries[i].Some?)
  {
    if entries == [] {
      at := [];
    } else {
      var n := |entries| - 1;
      var init := CompactIff(entries[..n]);
      hide Positions, Select;
      at := SelectLast(entries, init, entries[n].Some?);
    }
  }

  lemma {:induction false} CompactAppend(a: seq<Option<HelperInput>>, b: seq<Option<HelperInput>>)
    ensures Compact(a + b) == Compact(a) + Compact(b)
  {
    if b == [] {
      assert a + b == a;
    } else {
      assert (a + b)[..|a + b| - 1] == a + b[..|b| - 1];
      CompactAppend(a, b[..|b| - 1]);
    }
  }

  lemma {:induction false} CompactStep(s: seq<Option<HelperInput>>, i: nat)
    requires i < |s|
    ensures Compact(s[..i + 1]) == Compact(s[..i]) + match s[i] case None => [] case Some(input) => [input]
    ensures Compact(s[i..]) == (match s[i] case None => [] case Some(input) => [input]) + Compact(s[i + 1..])
  {
    assert s[..i + 1][..i] == s[..i];
    assert s[i..] == [s[i]] + s[i + 1..];
    CompactAppend([s[i]], s[i + 1..]);
    assert [s[i]][..0] == [];
  }

  lemma {:induction false} CompactNone()
    ensures Compact([]) == []
  {
  }

  class KindHelperPool {
    const maxNum: nat
    var running: set<string>
    var backlog: array<Option<HelperInput>>
    var len: nat
    var hmap: map<string, HelperArgs>
    var chOut: seq<HelperResult>

    constructor (maxNum: nat)
      ensures Valid() && this.maxNum == maxNum && State() == Pool({}, [], map[], [])
      ensures fresh(backlog)
    {
      this.maxNum := maxNum;
      running, hmap, chOut, len := {}, map[], [], 0;
      backlog := new Option<HelperInput>[0];
    }

    ghost function Waiting(): (r: seq<HelperInput>)
      reads this, backlog
      requires len <= backlog.Length
    {
      Compact(backlog[..len])
    }

    /** The holes never outnumber the waiting inputs. */
    ghost predicate Valid()
      reads this, backlog
    {
      len <= backlog.Length && len <= 2 * |Waiting()|
    }

    ghost function State(): (r: Pool)
      reads this, backlog
      requires len <= backlog.Length
    {
      Pool(running, Waiting(), hmap, chOut)
    }

    /** Appends to the slice, in place when its capacity allows it, and otherwise to a copy of any
        larger capacity. */
    method DoGrowBacklog(input: HelperInput)
      requires Valid()
      modifies this`backlog, this`len, backlog
      ensures Valid() && (backlog == old(backlog) || fresh(backlog))
      ensures Waiting() == old(Waiting()) + [input]
    {
      ghost var before := backlog[..len];
      if len == backlog.Length {
        var capacity: int := *;
        if capacity <= len {
          capacity := len + 1;
        }
        var bigger := new Option<HelperInput>[capacity](_ => None);
        for i := 0 to len
          invariant bigger[..i] == backlog[..i]
          modifies bigger
        {
          bigger[i] := backlog[i];
        }
        backlog := bigger;
      }
      backlog[len] := Some(input);
      len := len + 1;
      assert backlog[..len] == before + [Some(input)];
    }

    lemma {:induction false} PrefixNoLonger(i: nat)
      requires i <= len <= backlog.Length
      ensures |Compact(backlog[..i])| <= |Waiting()|
    {
      CompactAppend(backlog[..i], backlog[i..len]);
      assert backlog[..i] + backlog[i..len] == backlog[..len];
    }

    /** Drops the holes when they take half of the capacity or more. */
    method ShrinkBacklog(backlogSz: nat)
      requires len <= backlog.Length && backlogSz == |Waiting()|
      modifies this`backlog, this`len
      ensures Valid() && (backlog == old(backlog) || fresh(backlog))
      ensures Waiting() == old(Waiting())
    {
      if backlogSz == 0 {
        backlog := new Option<HelperInput>[0];
        len := 0;
        return;
      }
      if backlog.Length < 2 * backlogSz {
        return;
      }
      var clean := new Option<HelperInput>[backlogSz](_ => None);
      var n := 0;
      CompactNone();
      assert clean[..0] == backlog[..0] == [];
      for i := 0 to len
        invariant n == |Compact(backlog[..i])| <= backlogSz
        invariant Compact(clean[..n]) == Compact(backlog[..i])
        modifies clean
      {
        EntryStep(i);
        PrefixNoLonger(i + 1);
        match backlog[i]
        case None =>
        case Some(input) =>
          ghost var before := clean[..n];
          clean[n] := Some(input);
          n := n + 1;
          assert clean[..n] == before + [Some(input)];
      }
      backlog, len := clean, n;
    }

    method FailOne(input: HelperInput)
      modifies this`chOut
      ensures chOut == old(chOut) + [Failed(input)]
    {
      chOut := chOut + [HelperResult(Message(input.payload), input)];
    }

    method HandleOne(input: HelperInput, launch: Launch) returns (ok: bool)
      modifies this`hmap
      ensures ok == launch(input).Some?
      ensures hmap == if ok then old(hmap)[Uid(input, launch(input).value) := HelperArgs(input, false)] else old(hmap)
    {
      match launch(input)
      case None => return false;
      case Some(iid) =>
        hmap := hmap[Uid(input, iid) := HelperArgs(input, false)];
        return true;
    }

    method TryOne(input: HelperInput, launch: Launch) returns (ok: bool)
      modifies this`hmap, this`chOut
      ensures ok == launch(input).Some?
      ensures hmap == if ok then old(hmap)[Uid(input, launch(input).value) := HelperArgs(input, false)] else old(hmap)
      ensures chOut == if ok then old(chOut) else old(chOut) + [Failed(input)]
    {
      ok := HandleOne(input, launch);
      if !ok {
        FailOne(input);
      }
    }

    /** The loop takes a new input. */
    method HandleInput(input: HelperInput, launch: Launch)
      requires Valid()
      modifies this, backlog
      ensures Valid() && (backlog == old(backlog) || fresh(backlog))
      ensures State() == AfterInput(old(State()), maxNum, input, launch)
    {
      if |running| >= maxNum || input.app in running {
        DoGrowBacklog(input);
      } else {
        var ok := TryOne(input, launch);
        if ok {
          running := running + {input.app};
        }
      }
    }

    /** The loop learns that the helper of an application is done. */
    method HandleDone(app: string, launch: Launch)
      requires Valid()
      modifies this, backlog
      ensures Valid() && (backlog == old(backlog) || fresh(backlog))
      ensures State() == AfterDone(old(State()), app, launch)
    {
      hide Scan, Compact;
      ghost var goal := AfterDone(State(), app, launch);
      running := running - {app};
      ScanNone(Pool(running, [], hmap, chOut), false, launch);
      CompactNone();
      assert backlog[..0] == [] && backlog[0..len] == backlog[..len];
      if len == 0 {
        return;
      }
      var backlogSz, done := 0, false;
      for i := 0 to len
        invariant backlog == old(backlog) && len == old(len)
        invariant backlogSz == |Compact(backlog[..i])|
        invariant Scan(Pool(running, Compact(backlog[..i]), hmap, chOut), Compact(backlog[i..len]), done,
            launch) == goal
      {
        EntryStep(i);
        match backlog[i]
        case None =>
        case Some(input) =>
          ScanStep(Pool(running, Compact(backlog[..i]), hmap, chOut), input, Compact(backlog[i + 1..len]), done,
              launch);
          if !done && input.app !in running {
            MakeHole(i);
            var ok := TryOne(input, launch);
            if ok {
              running := running + {input.app};
              done := true;
            }
          } else {
            backlogSz := backlogSz + 1;
          }
      }
      assert backlog[len..len] == [];
      ScanNone(Pool(running, Waiting(), hmap, chOut), done, launch);
      ShrinkBacklog(backlogSz);
    }

    lemma {:induction false} EntryStep(i: nat)
      requires i < len <= backlog.Length
      ensures backlog[i].None? ==>
                && Compact(backlog[..i + 1]) == Compact(backlog[..i])
                && Compact(backlog[i..len]) == Compact(backlog[i + 1..len])
      ensures backlog[i].Some? ==>
                && Compact(backlog[..i + 1]) == Compact(backlog[..i]) + [backlog[i].value]
                && Compact(backlog[i..len]) == [backlog[i].value] + Compact(backlog[i + 1..len])
    {
      var s := backlog[..len];
      CompactStep(s, i);
      assert s[..i] == backlog[..i] && s[i..] == backlog[i..len];
      assert s[..i + 1] == backlog[..i + 1] && s[i + 1..] == backlog[i + 1..len];
    }

    method MakeHole(i: nat)
      requires i < len <= backlog.Length
      modifies backlog
      ensures Compact(backlog[..i + 1]) == old(Compact(backlog[..i]))
      ensures backlog[i + 1..len] == old(backlog[i + 1..len])
    {
      ghost var kept := backlog[..i];
      backlog[i] := None;
      EntryStep(i);
      assert backlog[..i] == kept;
    }

    /** The timer of a helper asks it to stop; its output no longer counts. */
    method ForceStop(uid: string)
      modifies this`hmap
      ensures hmap == if uid in old(hmap) then old(hmap)[uid := old(hmap)[uid].(forcedStop := true)] else old(hmap)
    {
      if uid in hmap {
        hmap := hmap[uid := hmap[uid].(forcedStop := true)];
      }
    }

    /** A helper is done: it is forgotten, its input is answered, and then the loop is told its
        application.  For an instance that is not known there is nothing to do. */
    method OneDone(uid: string, output: Option<string>) returns (done: Option<string>)
      modifies this`hmap, this`chOut
      ensures done == if uid in old(hmap) then Some(old(hmap)[uid].input.app) else None
      ensures hmap == old(hmap) - {uid}
      ensures chOut == if uid in old(hmap) then old(chOut) + [Answer(old(hmap)[uid], output)] else old(chOut)
      ensures uid in old(hmap) ==>
                var r := chOut[|old(chOut)|];
                && r.input == old(hmap)[uid].input
                && (output.Some? && !old(hmap)[uid].forcedStop ==> r.output == Parsed(output.value))
                && (output.None? || old(hmap)[uid].forcedStop ==> r.output == Message(r.input.payload))
    {
      if uid !in hmap {
        return None;
      }
      var args := hmap[uid];
      hmap := hmap - {uid};
      done := Some(args.input.app);
      if args.forcedStop {
        FailOne(args.input);
        return;
      }
      match output
      case Some(text) => chOut := chOut + [HelperResult(Parsed(text), args.input)];
      case None => FailOne(args.input);
    }
  }
}
