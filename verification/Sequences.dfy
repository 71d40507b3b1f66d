/** Stock definitions. */
module Sequences {
  datatype Option<T> = None | Some(value: T)

  ghost predicate Distinct<T>(s: seq<T>) {
    forall i, j :: 0 <= i < j < |s| ==> s[i] != s[j]
  }

  /** Positions in a list of length `n`, in order. */
  ghost predicate Positions(at: seq<nat>, n: nat) {
    && (forall k :: 0 <= k < |at| ==> at[k] < n)
    && forall k, l :: 0 <= k < l < |at| ==> at[k] < at[l]
  }

  /** The items at these positions. */
  ghost function Select<T>(s: seq<T>, at: seq<nat>): (r: seq<T>)
    requires Positions(at, |s|)
    ensures |r| == |at| && forall k :: 0 <= k < |r| ==> r[k] == s[at[k]]
  {
    seq(|at|, k requires 0 <= k < |at| => s[at[k]])
  }

  /** The same positions after `n` more items. */
  function Later(n: nat, rest: seq<nat>): (r: seq<nat>)
    ensures |r| == |rest| && forall k :: 0 <= k < |r| ==> r[k] == rest[k] + n
  {
    seq(|rest|, k requires 0 <= k < |rest| => rest[k] + n)
  }

  lemma {:induction false} LaterHas(n: nat, rest: seq<nat>, i: nat)
    ensures i in Later(n, rest) <==> i >= n && i - n in rest
  {
    if i >= n && i - n in rest {
      var k :| 0 <= k < |rest| && rest[k] == i - n;
      assert Later(n, rest)[k] == i;
    }
  }

  lemma {:induction false} SelectLater<T>(s: seq<T>, n: nat, rest: seq<nat>)
    requires n <= |s| && Positions(rest, |s| - n)
    ensures Positions(Later(n, rest), |s|) && Select(s, Later(n, rest)) == Select(s[n..], rest)
  {
  }

  lemma {:induction false} SelectFirst<T>(s: seq<T>, later: seq<nat>)
    requires s != [] && Positions(later, |s|) && forall k :: 0 <= k < |later| ==> later[k] > 0
    ensures Positions([0] + later, |s|) && Select(s, [0] + later) == [s[0]] + Select(s, later)
  {
  }

  /** Selecting from `s[1..]`, and then possibly `s[0]` before it. */
  lemma {:induction false} SelectStep<T>(s: seq<T>, rest: seq<nat>, first: bool) returns (at: seq<nat>)
    requires s != [] && Positions(rest, |s| - 1)
    ensures Positions(at, |s|)
    ensures Select(s, at) == if first then [s[0]] + Select(s[1..], rest) else Select(s[1..], rest)
    ensures forall i :: 0 <= i < |s| ==> (i in at <==> if i == 0 then first else i - 1 in rest)
  {
    var later := Later(1, rest);
    SelectLater(s, 1, rest);
    SelectFirst(s, later);
    at := if first then [0] + later else later;
    hide Later, Positions, Select;
    LaterHas(1, rest, 0);
    forall i | 0 < i < |s|
      ensures i in at <==> i - 1 in rest
    {
      LaterHas(1, rest, i);
    }
  }

  lemma {:induction false} SelectInit<T>(s: seq<T>, init: seq<nat>)
    requires s != [] && Positions(init, |s| - 1)
    ensures Positions(init, |s|) && Select(s, init) == Select(s[..|s| - 1], init)
    ensures Positions(init + [|s| - 1], |s|)
    ensures Select(s, init + [|s| - 1]) == Select(s[..|s| - 1], init) + [s[|s| - 1]]
  {
  }

  /** Selecting from all but the last item, and then possibly the last one. */
  lemma {:induction false} SelectLast<T>(s: seq<T>, init: seq<nat>, last: bool) returns (at: seq<nat>)
    requires s != [] && Positions(init, |s| - 1)
    ensures Positions(at, |s|)
    ensures Select(s, at) == if last then Select(s[..|s| - 1], init) + [s[|s| - 1]] else Select(s[..|s| - 1], init)
    ensures forall i :: 0 <= i < |s| ==> (i in at <==> if i == |s| - 1 then last else i in init)
  {
    SelectInit(s, init);
    assert |s| - 1 !in init;
    at := if last then init + [|s| - 1] else init;
    hide Positions, Select;
  }

  lemma {:induction false} SelectAll<T>(s: seq<T>) returns (at: seq<nat>)
    ensures Positions(at, |s|) && Select(s, at) == s
    ensures forall i :: 0 <= i < |s| ==> i in at
  {
    at := seq(|s|, k => k);
    forall i | 0 <= i < |s|
      ensures i in at
    {
      assert at[i] == i;
    }
  }

  /** Selecting from a selection. */
  lemma {:induction false} SelectTwice<T>(s: seq<T>, at: seq<nat>, among: seq<nat>) returns (both: seq<nat>)
    requires Positions(at, |s|) && Positions(among, |at|)
    ensures Positions(both, |s|) && Select(s, both) == Select(Select(s, at), among)
    ensures forall i :: i in both <==> exists k :: 0 <= k < |at| && at[k] == i && k in among
  {
    both := Select(at, among);
    forall i
      ensures i in both <==> exists k :: 0 <= k < |at| && at[k] == i && k in among
    {
      if i in both {
        var l :| 0 <= l < |both| && both[l] == i;
        assert at[among[l]] == i && among[l] in among;
      }
      if k :| 0 <= k < |at| && at[k] == i && k in among {
        var l :| 0 <= l < |among| && among[l] == k;
        assert both[l] == i;
      }
    }
  }
}
