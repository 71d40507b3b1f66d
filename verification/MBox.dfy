/** The message box of one application, client/service/mbox.go: a size-limited buffer that evicts the
    oldest messages and compacts its slices now and then. */
module MBox {

  /** A message with its notification id. */
  datatype Letter = Letter(message: string, nid: string)

  function Total(letters: seq<Letter>): (r: nat) {
    if letters == [] then 0 else |letters[0].message| + Total(letters[1..])
  }

  /** How many letters to evict to make room for `size`. */
  function EvictCount(letters: seq<Letter>, size: int): (k: nat)
    ensures k <= |letters|
    decreases |letters|
  {
    if size <= 0 || letters == [] then 0 else 1 + EvictCount(letters[1..], size - |letters[0].message|)
  }

  /** The box after an append. */
  function Appended(letters: seq<Letter>, limit: nat, letter: Letter): (r: seq<Letter>) {
    var size := |letter.message|;
    var kept := if Total(letters) + size > limit then letters[EvictCount(letters, size)..] else letters;
    kept + [letter]
  }

  /** The box after these appends to an empty one. */
  function Box(limit: nat, history: seq<Letter>): (r: seq<Letter>) {
    if history == [] then []
    else Appended(Box(limit, history[..|history| - 1]), limit, history[|history| - 1])
  }

  lemma {:induction false} TotalConcat(a: seq<Letter>, b: seq<Letter>)
    ensures Total(a + b) == Total(a) + Total(b)
  {
    if a == [] {
      assert a + b == b;
    } else {
      assert (a + b)[1..] == a[1..] + b;
      TotalConcat(a[1..], b);
    }
  }

  /** Those evicted are the shortest head that makes enough room, or everything. */
  lemma {:induction false} EvictsShortestHead(letters: seq<Letter>, size: int)
    ensures var k := EvictCount(letters, size);
            && (Total(letters[..k]) >= size || k == |letters|)
            && forall j :: 0 <= j < k ==> Total(letters[..j]) < size
    decreases |letters|
  {
    if size > 0 && letters != [] {
      var first, rest := |letters[0].message|, letters[1..];
      var k := EvictCount(letters, size);
      EvictsShortestHead(rest, size - first);
      HeadTotal(letters, k);
      forall j | 0 <= j < k
        ensures Total(letters[..j]) < size
      {
        if j > 0 {
          HeadTotal(letters, j);
        }
      }
    }
  }

  lemma {:induction false} HeadTotal(letters: seq<Letter>, k: nat)
    requires 0 < k <= |letters|
    ensures Total(letters[..k]) == |letters[0].message| + Total(letters[1..][..k - 1])
  {
    assert letters[..k][1..] == letters[1..][..k - 1];
  }

  /** From within the limit, a box stays within it if and only if the new message fits it. */
  lemma {:induction false} StaysWithinLimitIff(letters: seq<Letter>, limit: nat, letter: Letter)
    requires Total(letters) <= limit
    ensures Total(Appended(letters, limit, letter)) <= limit <==> |letter.message| <= limit
  {
    var size := |letter.message|;
    var k := EvictCount(letters, size);
    EvictsShortestHead(letters, size);
    assert letters == letters[..k] + letters[k..];
    TotalConcat(letters[..k], letters[k..]);
    TotalConcat(letters[k..], [letter]);
    TotalConcat(letters, [letter]);
    assert Total([letter]) == size + Total([letter][1..]);
  }

  ghost predicate IsLatest(box: seq<Letter>, history: seq<Letter>) {
    |box| <= |history| && forall i :: 0 <= i < |box| ==> box[i] == history[|history| - |box| + i]
  }

  /** After any appends the box holds the latest of them in order, the very last one included. */
  lemma {:induction false} BoxIsLatest(limit: nat, history: seq<Letter>)
    ensures IsLatest(Box(limit, history), history)
    ensures history != [] ==> Box(limit, history) != []
    decreases |history|
  {
    if history == [] {
    } else {
      hide Box, Total, EvictCount, IsLatest, Appended;
      var before, last := history[..|history| - 1], history[|history| - 1];
      assert before + [last] == history;
      BoxIsLatest(limit, before);
      BoxStep(limit, before, last);
      AppendedIsLatest(Box(limit, before), limit, last, before);
    }
  }

  lemma {:induction false} AllIsLatest(history: seq<Letter>)
    ensures IsLatest(history, history)
  {
  }

  lemma {:induction false} RestIsLatest(box: seq<Letter>, history: seq<Letter>)
    requires IsLatest(box, history) && box != []
    ensures IsLatest(box[1..], history)
  {
  }

  lemma {:induction false} LatestIsEnd(box: seq<Letter>, history: seq<Letter>)
    requires IsLatest(box, history)
    ensures box == history[|history| - |box|..]
  {
  }

  lemma {:induction false} AppendedIsLatest(box: seq<Letter>, limit: nat, letter: Letter, history: seq<Letter>)
    requires IsLatest(box, history)
    ensures IsLatest(Appended(box, limit, letter), history + [letter])
    ensures Appended(box, limit, letter) != []
  {
    hide Total, EvictCount;
    var size := |letter.message|;
    var k := if Total(box) + size > limit then EvictCount(box, size) else 0;
    assert Appended(box, limit, letter) == box[k..] + [letter];
  }

  /** Nothing is evicted while there is room.  Otherwise the oldest letters are, just as many as make up for
      the size of the new message, or all. */
  lemma {:induction false} AppendEvicts(letters: seq<Letter>, limit: nat, letter: Letter) returns (k: nat)
    ensures k <= |letters| && Appended(letters, limit, letter) == letters[k..] + [letter]
    ensures Total(letters) + |letter.message| <= limit ==> k == 0
    ensures Total(letters) + |letter.message| > limit ==>
              && (Total(letters[..k]) >= |letter.message| || k == |letters|)
              && forall j :: 0 <= j < k ==> Total(letters[..j]) < |letter.message|
  {
    var size := |letter.message|;
    EvictsShortestHead(letters, size);
    k := if Total(letters) + size > limit then EvictCount(letters, size) else 0;
    hide Total, EvictCount;
  }

  ghost function TotalUpTo(history: seq<Letter>, n: nat): (r: nat)
    requires n <= |history|
  {
    Total(history[..n])
  }

  /** From the second message on, each one that is not empty left the total within the limit. */
  ghost predicate AlwaysRoom(limit: nat, history: seq<Letter>) {
    forall n :: 2 <= n <= |history| && history[n - 1].message != "" ==> TotalUpTo(history, n) <= limit
  }

  lemma {:induction false} RoomForOneMore(limit: nat, history: seq<Letter>, letter: Letter)
    ensures AlwaysRoom(limit, history + [letter]) <==>
            && AlwaysRoom(limit, history)
            && (history != [] && letter.message != "" ==> Total(history) + |letter.message| <= limit)
  {
    var all := history + [letter];
    TotalOne(history, letter);
    assert all[..|all|] == all;
    forall n: nat | n <= |history|
      ensures TotalUpTo(all, n) == TotalUpTo(history, n)
    {
      assert all[..n] == history[..n];
    }
    assert TotalUpTo(all, |all|) == Total(history) + |letter.message|;
    hide Total, TotalUpTo;
  }

  lemma {:induction false} RoomIsTotal(limit: nat, history: seq<Letter>)
    requires Total(history) <= limit
    ensures AlwaysRoom(limit, history)
  {
    forall n: nat | n <= |history|
      ensures TotalUpTo(history, n) <= limit
    {
      TotalConcat(history[..n], history[n..]);
      assert history[..n] + history[n..] == history;
    }
  }

  /** An append to the letters of a history keeps them all if and only if they were all there and no room is
      needed, or there is room, or there is nothing to evict. */
  lemma {:induction false} AppendKeepsAllIff(box: seq<Letter>, limit: nat, letter: Letter, history: seq<Letter>)
    requires |box| <= |history|
    ensures Appended(box, limit, letter) == history + [letter] <==>
            && box == history
            && (history == [] || letter.message == "" || Total(history) + |letter.message| <= limit)
  {
    var k := AppendEvicts(box, limit, letter);
    assert Total([]) == 0 && box[..0] == [];
    hide Total, Appended;
    if k > 0 {
      assert |box[k..] + [letter]| < |history + [letter]|;
    } else {
      assert box[k..] == box;
      assert (box + [letter])[..|box|] == box;
      assert (history + [letter])[..|history|] == history;
    }
  }

  /** A box is its whole history if and only if there was always room; so it is when the total of the
      history is within the limit. */
  lemma {:induction false} BoxIsWholeIff(limit: nat, history: seq<Letter>)
    ensures Box(limit, history) == history <==> AlwaysRoom(limit, history)
    ensures Total(history) <= limit ==> Box(limit, history) == history
    decreases |history|
  {
    if history != [] {
      var before, last := history[..|history| - 1], history[|history| - 1];
      BoxIsWholeIff(limit, before);
      BoxIsLatest(limit, before);
      assert before + [last] == history;
      BoxStep(limit, before, last);
      AppendKeepsAllIff(Box(limit, before), limit, last, before);
      RoomForOneMore(limit, before, last);
    }
    if Total(history) <= limit {
      RoomIsTotal(limit, history);
    }
    hide Box, Total, Appended, AlwaysRoom;
  }

  /** A box is within the limit when no message exceeds it. */
  lemma {:induction false} BoxIsWithinLimit(limit: nat, history: seq<Letter>)
    requires forall i :: 0 <= i < |history| ==> |history[i].message| <= limit
    ensures Total(Box(limit, history)) <= limit
  {
    if history != [] {
      var before := history[..|history| - 1];
      BoxIsWithinLimit(limit, before);
      hide Total, Appended;
      StaysWithinLimitIff(Box(limit, before), limit, history[|history| - 1]);
    }
  }

  lemma {:induction false} BoxStep(limit: nat, history: seq<Letter>, letter: Letter)
    ensures Box(limit, history + [letter]) == Appended(Box(limit, history), limit, letter)
  {
    assert (history + [letter])[..|history|] == history;
  }

  // ----- The buffer ----------------------------------------------------------------------------

  function Pair(messages: seq<string>, nids: seq<string>): (r: seq<Letter>)
    requires |messages| == |nids|
    ensures |r| == |messages|
    ensures forall k :: 0 <= k < |r| ==> r[k] == Letter(messages[k], nids[k])
  {
    seq(|messages|, k requires 0 <= k < |messages| => Letter(messages[k], nids[k]))
  }

  class MBox {
    const maxMessagesSize: nat
    var evicted: nat
    var curSize: int
    var messages: array<string>
    var nids: array<string>
    var len: nat
    ghost var history: seq<Letter>   // all letters ever appended
    ghost var moved: nat             // how many letters compaction has moved so far

    constructor (maxMessagesSize: nat)
      ensures Valid() && this.maxMessagesSize == maxMessagesSize && history == []
      ensures fresh(messages) && fresh(nids)
    {
      this.maxMessagesSize, evicted, curSize, len, history, moved := maxMessagesSize, 0, 0, 0, [], 0;
      messages, nids := new string[0], new string[0];
    }

    ghost predicate Shape()
      reads `evicted, `len, `messages, `nids
    {
      evicted <= len <= messages.Length && len <= nids.Length && messages != nids
    }

    ghost function Letters(): (r: seq<Letter>)
      requires Shape()
      reads `evicted, `len, `messages, `nids, messages, nids
    {
      Pair(messages[evicted..len], nids[evicted..len])
    }

    /** The buffer holds the box of its history and has moved no letter more than twice on average. */
    ghost predicate Valid()
      reads this, messages, nids
    {
      && Shape() && len <= |history|
      && Letters() == Box(maxMessagesSize, history)
      && curSize == Total(Letters())
      && Blanked()
      && moved <= 2 * (|history| - len)
    }

    ghost predicate Blanked()
      reads `evicted, `len, `messages, `nids, messages, nids
      requires Shape()
    {
      forall k :: 0 <= k < evicted ==> messages[k] == "" && nids[k] == ""
    }

    /** Evicts the oldest messages until `size` is made up for, or none is left. */
    method EvictFor(size: int)
      requires Shape() && curSize == Total(Letters()) && Blanked()
      modifies this`evicted, this`curSize, messages, nids
      ensures Shape() && curSize == Total(Letters()) && Blanked()
      ensures Letters() == old(Letters())[EvictCount(old(Letters()), size)..]
    {
      hide Total, EvictCount, Letters, Blanked, IsLatest;
      ghost var letters := Letters();
      LettersLength();
      AllIsLatest(letters);
      var evictedSize := 0;
      while evictedSize < size && evicted < len
        invariant Shape() && Blanked()
        invariant |Letters()| == len - evicted && IsLatest(Letters(), letters)
        invariant Total(letters) == evictedSize + Total(Letters())
        invariant EvictCount(letters, size) + |Letters()| == |letters| + EvictCount(Letters(), size - evictedSize)
        decreases len - evicted
        modifies this`evicted, messages, nids
      {
        ghost var rest := Letters();
        EvictStep(rest, size - evictedSize);
        RestIsLatest(rest, letters);
        var evictedOne := EvictOne();
        evictedSize := evictedSize + evictedOne;
      }
      EvictNone(Letters(), size - evictedSize);
      LatestIsEnd(Letters(), letters);
      curSize := curSize - evictedSize;
    }

    lemma {:induction false} LettersLength()
      requires Shape()
      ensures |Letters()| == len - evicted
    {
    }

    method EvictOne() returns (size: nat)
      requires Shape() && Blanked() && evicted < len
      modifies this`evicted, messages, nids
      ensures Shape() && Blanked() && evicted == old(evicted) + 1
      ensures Letters() == old(Letters())[1..] && size == |old(Letters())[0].message|
    {
      size := |messages[evicted]|;
      messages[evicted] := "";
      nids[evicted] := "";
      evicted := evicted + 1;
    }

    /** Moves the items of a slice from `first` on to its front. */
    static method CopyDown(a: array<string>, first: nat, n: nat)
      requires first <= n <= a.Length
      modifies a
      ensures a[..n - first] == old(a[first..n])
    {
      for k := 0 to n - first
        invariant forall j :: 0 <= j < k ==> a[j] == old(a[first + j])
        invariant forall j :: first + k <= j < n ==> a[j] == old(a[j])
      {
        a[k] := a[first + k];
      }
    }

    /** Moves the letters to the front of the slices. */
    method Compact()
      requires Shape() && 0 < evicted && len <= 2 * evicted + 1
      modifies this`evicted, this`len, this`moved, messages, nids
      ensures Shape() && evicted == 0 && len == old(len) - old(evicted)
      ensures Letters() == old(Letters()) && moved == old(moved) + len && len <= 2 * old(evicted)
    {
      var kept := len - evicted;
      CopyDown(messages, evicted, len);
      CopyDown(nids, evicted, len);
      moved := moved + kept;
      len, evicted := kept, 0;
    }

    /** Makes room at the end of the evicted part: from scratch when everything is evicted, and by a
        copy when half of the capacity is. */
    method Reclaim()
      requires Shape() && Blanked()
      modifies this`evicted, this`len, this`moved, messages, nids
      ensures Shape() && Blanked() && Letters() == old(Letters()) && len <= old(len)
      ensures moved <= old(moved) + 2 * (old(len) - len)
    {
      if evicted > 0 {
        if evicted == len {
          len, evicted := 0, 0;
        } else if evicted >= messages.Length / 2 {
          Compact();
        }
      }
    }

    method Append(message: string, nid: string)
      requires Valid()
      modifies this, messages, nids
      ensures Valid() && history == old(history) + [Letter(message, nid)]
      ensures Letters() == Appended(old(Letters()), maxMessagesSize, Letter(message, nid))
      ensures Total(old(Letters())) + |message| <= maxMessagesSize ==>
                Letters() == old(Letters()) + [Letter(message, nid)]
      ensures messages == old(messages) || fresh(messages)
      ensures nids == old(nids) || fresh(nids)
    {
      hide Total, EvictCount, Box, Pair;
      ghost var letter := Letter(message, nid);
      var size := |message|;
      if curSize + size > maxMessagesSize {
        EvictFor(size);
      }
      Reclaim();
      ghost var kept := Letters();
      Push(message, nid);
      curSize := curSize + size;
      history := history + [letter];
      BoxStep(maxMessagesSize, old(history), letter);
      TotalOne(kept, letter);
    }

    /** Appends to both slices, which grow to some larger capacity when they are full. */
    method Push(message: string, nid: string)
      requires Shape()
      modifies this`messages, this`nids, this`len, messages, nids
      ensures Shape() && len == old(len) + 1 && Letters() == old(Letters()) + [Letter(message, nid)]
      ensures messages == old(messages) || fresh(messages)
      ensures nids == old(nids) || fresh(nids)
      ensures forall k :: 0 <= k < evicted ==> messages[k] == old(messages[k]) && nids[k] == old(nids[k])
    {
      messages := AppendTo(messages, len, message);
      nids := AppendTo(nids, len, nid);
      len := len + 1;
      assert messages[evicted..len] == old(messages[evicted..len]) + [message];
      assert nids[evicted..len] == old(nids[evicted..len]) + [nid];
    }

    /** Appends to a slice of an array. */
    static method AppendTo(a: array<string>, n: nat, s: string) returns (r: array<string>)
      requires n <= a.Length
      modifies a
      ensures r == a || fresh(r)
      ensures n < r.Length && r[n] == s
      ensures forall k :: 0 <= k < n ==> r[k] == old(a[k])
    {
      r := a;
      if n == a.Length {
        var capacity: int := *;
        if capacity <= n {
          capacity := n + 1;
        }
        r := new string[capacity](_ => "");
        for i := 0 to n
          invariant forall k :: 0 <= k < i ==> r[k] == a[k]
          modifies r
        {
          r[i] := a[i];
        }
      }
      r[n] := s;
    }

    method AllMessages() returns (all: seq<string>)
      requires Valid()
      ensures |all| == |Box(maxMessagesSize, history)|
      ensures forall k :: 0 <= k < |all| ==> all[k] == Box(maxMessagesSize, history)[k].message
    {
      hide Box;
      all := messages[evicted..len];
    }
  }

  lemma {:induction false} EvictNone(letters: seq<Letter>, size: int)
    ensures size <= 0 || letters == [] ==> EvictCount(letters, size) == 0
    ensures Total([]) == 0
  {
  }

  lemma {:induction false} EvictStep(letters: seq<Letter>, size: int)
    requires size > 0 && letters != []
    ensures EvictCount(letters, size) == 1 + EvictCount(letters[1..], size - |letters[0].message|)
    ensures Total(letters) == |letters[0].message| + Total(letters[1..])
  {
  }

  lemma {:induction false} TotalOne(letters: seq<Letter>, letter: Letter)
    ensures Total(letters + [letter]) == Total(letters) + |letter.message|
  {
    TotalConcat(letters, [letter]);
    assert Total([letter]) == |letter.message| + Total([letter][1..]);
  }
}
