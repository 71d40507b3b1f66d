/** What the client remembers: client/session/seenstate/seenstate.go and sqlseenstate.go. */
module SeenState {
  import opened Sequences
  import opened Messages
  import opened Store

  function RowSet(rows: seq<string>): (r: set<string>) {
    set id | id in rows
  }

  /** The notifications not seen before, first occurrences only. */
  function Fresh(seen: set<string>, ns: seq<Notification>): (r: seq<Notification>)
    decreases |ns|
  {
    if ns == [] then []
    else if ns[0].msgId in seen then Fresh(seen, ns[1..])
    else [ns[0]] + Fresh(seen + {ns[0].msgId}, ns[1..])
  }

  /** Deletes the rows before the one that holds `id`; without such a row, nothing. */
  function DropBefore(rows: seq<string>, id: string): (r: seq<string>) {
    if id !in rows then rows
    else if rows[0] == id then rows
    else DropBefore(rows[1..], id)
  }

  /** The rows after a batch: new ids go to the end, then everything before the head goes. */
  function AfterSeen(rows: seq<string>, ns: seq<Notification>): (r: seq<string>) {
    if ns == [] then rows
    else DropBefore(rows + Ids(Fresh(RowSet(rows), ns)), ns[0].msgId)
  }

  lemma {:induction false} FreshStep(seen: set<string>, ns: seq<Notification>, i: nat)
    requires i < |ns|
    ensures Fresh(seen, ns[i..]) ==
            if ns[i].msgId in seen then Fresh(seen, ns[i + 1..])
            else [ns[i]] + Fresh(seen + {ns[i].msgId}, ns[i + 1..])
  {
    assert ns[i..][0] == ns[i] && ns[i..][1..] == ns[i + 1..];
  }

  lemma {:induction false} FreshOfNone(seen: set<string>)
    ensures Fresh(seen, []) == []
  {
  }

  /** Passed on are the notifications whose ids are neither seen nor those of earlier ones, in their order. */
  lemma {:induction false} FreshIff(seen: set<string>, ns: seq<Notification>) returns (at: seq<nat>)
    ensures Positions(at, |ns|) && Fresh(seen, ns) == Select(ns, at)
    ensures forall i :: 0 <= i < |ns| ==>
              (i in at <==> ns[i].msgId !in seen && forall j :: 0 <= j < i ==> ns[j].msgId != ns[i].msgId)
    decreases |ns|
  {
    if ns == [] {
      at := [];
    } else {
      var id := ns[0].msgId;
      var rest := FreshIff(seen + {id}, ns[1..]);
      if id in seen {
        assert seen + {id} == seen;
      }
      at := SelectStep(ns, rest, id !in seen);
      hide Positions, Select;
      forall i | 0 < i < |ns|
        ensures i in at <==> ns[i].msgId !in seen && forall j :: 0 <= j < i ==> ns[j].msgId != ns[i].msgId
      {
        assert forall j :: 0 < j < i ==> ns[j] == ns[1..][j - 1];
        assert forall j :: 0 <= j < i - 1 ==> ns[1..][j] == ns[j + 1];
      }
    }
  }

  /** After a batch the rows are the old ones and then the new ids, from the first row of the head of the
      batch on. */
  lemma {:induction false} RowsStartAtHead(rows: seq<string>, ns: seq<Notification>)
    ensures ns == [] ==> AfterSeen(rows, ns) == rows
    ensures ns != [] ==>
              var all, left, head := rows + Ids(Fresh(RowSet(rows), ns)), AfterSeen(rows, ns), ns[0].msgId;
              && 0 < |left| <= |all| && left == all[|all| - |left|..] && left[0] == head
              && forall i :: 0 <= i < |all| - |left| ==> all[i] != head
  {
    if ns != [] {
      var unseen := Fresh(RowSet(rows), ns);
      if ns[0].msgId !in rows {
        assert Ids(unseen)[0] == ns[0].msgId;
      }
      DropsUpToFirst(rows + Ids(unseen), ns[0].msgId);
    }
  }

  lemma {:induction false} DropsUpToFirst(rows: seq<string>, id: string)
    requires id in rows
    ensures var left := DropBefore(rows, id);
            && 0 < |left| <= |rows| && left == rows[|rows| - |left|..] && left[0] == id
            && forall i :: 0 <= i < |rows| - |left| ==> rows[i] != id
  {
    if rows[0] != id {
      assert rows == [rows[0]] + rows[1..];
      DropsUpToFirst(rows[1..], id);
    }
  }

  lemma {:induction false} RowSetAppend(rows: seq<string>, id: string)
    ensures RowSet(rows + [id]) == RowSet(rows) + {id}
  {
  }

  /** The level table, and the table of seen ids in the order of its row ids.  A new row gets the
      largest row id plus one, and the row with the largest id is never deleted. */
  class SqliteSeenState {
    var levels: map<string, int>
    var rows: seq<string>

    constructor ()
      ensures levels == map[] && rows == []
    {
      levels, rows := map[], [];
    }

    method SetLevel(level: string, top: int)
      modifies this`levels
      ensures levels == old(levels)[level := top]
    {
      levels := levels[level := top];
    }

    method DropPrevThan(msgId: string)
      modifies this`rows
      ensures rows == DropBefore(old(rows), msgId)
    {
      if msgId in rows {
        var i := 0;
        while rows[i] != msgId
          modifies {}
          invariant i < |rows| && msgId in rows[i..]
          invariant DropBefore(rows[i..], msgId) == DropBefore(rows, msgId)
          decreases |rows| - i
        {
          assert rows[i..][1..] == rows[i + 1..];
          assert rows[i..] == [rows[i]] + rows[i + 1..];
          i := i + 1;
        }
        rows := rows[i..];
      }
    }

    /** Inserts the new ids of a batch in order. */
    method Insert(notifs: seq<Notification>) returns (acc: seq<Notification>)
      modifies this`rows
      ensures acc == Fresh(RowSet(old(rows)), notifs) && rows == old(rows) + Ids(acc)
    {
      hide Fresh, RowSet, Ids;
      acc := [];
      ghost var all := Fresh(RowSet(rows), notifs);
      assert notifs[0..] == notifs;
      assert Ids([]) == [] && rows + [] == rows;
      for i := 0 to |notifs|
        invariant acc + Fresh(RowSet(rows), notifs[i..]) == all
        invariant rows == old(rows) + Ids(acc)
      {
        FreshStep(RowSet(rows), notifs, i);
        RowSetMember(rows, notifs[i].msgId);
        if notifs[i].msgId in rows {
          continue;
        }
        RowSetAppend(rows, notifs[i].msgId);
        rows := rows + [notifs[i].msgId];
        acc := acc + [notifs[i]];
      }
      FreshOfNone(RowSet(rows));
      assert acc == all by {
        assert notifs[|notifs|..] == [] && acc + [] == acc;
      }
    }

    method FilterBySeen(notifs: seq<Notification>) returns (acc: seq<Notification>)
      modifies this`rows
      ensures acc == Fresh(RowSet(old(rows)), notifs)
      ensures rows == AfterSeen(old(rows), notifs)
    {
      if |notifs| == 0 {
        return [];
      }
      hide Fresh, DropBefore, RowSet, Ids;
      acc := Insert(notifs);
      DropPrevThan(notifs[0].msgId);
    }

    /** The database fails at item `k` of the batch, or after the last one, at the deletion: what was
        inserted before stays. */
    method FailToFilter(notifs: seq<Notification>, k: nat)
      requires k <= |notifs|
      modifies this`rows
      ensures rows == old(rows) + Ids(Fresh(RowSet(old(rows)), notifs[..k]))
    {
      var _ := Insert(notifs[..k]);
    }
  }

  lemma {:induction false} RowSetMember(rows: seq<string>, id: string)
    ensures id in RowSet(rows) <==> id in rows
  {
  }

  /** The memory-based state, which forgets nothing. */
  class MemSeenState {
    var levels: map<string, int>
    var seenMsgs: set<string>

    constructor ()
      ensures levels == map[] && seenMsgs == {}
    {
      levels, seenMsgs := map[], {};
    }

    method SetLevel(level: string, top: int)
      modifies this`levels
      ensures levels == old(levels)[level := top]
    {
      levels := levels[level := top];
    }

    method FilterBySeen(notifs: seq<Notification>) returns (acc: seq<Notification>)
      modifies this`seenMsgs
      ensures acc == Fresh(old(seenMsgs), notifs)
      ensures seenMsgs == old(seenMsgs) + IdSet(notifs)
    {
      hide Fresh;
      acc := [];
      ghost var all := Fresh(seenMsgs, notifs);
      assert notifs[0..] == notifs;
      for i := 0 to |notifs|
        invariant acc + Fresh(seenMsgs, notifs[i..]) == all
        invariant seenMsgs == old(seenMsgs) + IdSet(notifs[..i])
      {
        FreshStep(seenMsgs, notifs, i);
        assert notifs[..i + 1] == notifs[..i] + [notifs[i]];
        if notifs[i].msgId in seenMsgs {
          continue;
        }
        seenMsgs := seenMsgs + {notifs[i].msgId};
        acc := acc + [notifs[i]];
      }
      FreshOfNone(seenMsgs);
      assert notifs[..|notifs|] == notifs && notifs[|notifs|..] == [];
      assert acc + [] == acc;
    }
  }
}
