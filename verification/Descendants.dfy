/** The memory of a process tree: a breadth-first walk over a snapshot of processes, each given
    by its identifier and that of its parent. */
module Descendants {
  import opened Basics

  const MAX_PROCESSES := 4096

  /** Indices of processes, each the parent of the next, the first a child of `self`. */
  predicate IsLine(pids: seq<int>, parents: seq<int>, self: int, line: seq<nat>)
    requires |pids| == |parents|
  {
    && |line| > 0
    && (forall k :: 0 <= k < |line| ==> line[k] < |pids|)
    && parents[line[0]] == self
    && (forall k :: 0 < k < |line| ==> parents[line[k]] == pids[line[k - 1]])
  }

  /** The process is a child of `self`, or a child of a child, and so on. */
  ghost predicate Descends(pids: seq<int>, parents: seq<int>, self: int, pid: int)
    requires |pids| == |parents|
  {
    exists line :: IsLine(pids, parents, self, line) && pids[line[|line| - 1]] == pid
  }

  /** What the snapshot is expected to be: no identifier twice, the caller not below itself, and
      room for all of it and the caller. */
  ghost predicate Proper(pids: seq<int>, parents: seq<int>, self: int)
    requires |pids| == |parents|
  {
    && Distinct(pids)
    && !Descends(pids, parents, self, self)
    && |pids| <= MAX_PROCESSES && (self in pids || |pids| < MAX_PROCESSES)
  }

  /** The memory of the first `n` processes that descend from `self`. */
  ghost function DescendantsTotal(pids: seq<int>, parents: seq<int>, self: int, resident: int -> nat, n: nat): nat
    requires |pids| == |parents| && n <= |pids|
  {
    if n == 0 then 0
    else
      DescendantsTotal(pids, parents, self, resident, n - 1)
      + (if Descends(pids, parents, self, pids[n - 1]) then resident(pids[n - 1]) else 0)
  }

  // ---------------------------------------------------------------- sums over identifiers

  function SumOf(s: seq<int>, resident: int -> nat): nat {
    if |s| == 0 then 0 else SumOf(s[..|s| - 1], resident) + resident(s[|s| - 1])
  }

  /** The sum over those of `pids` that occur in `s`. */
  function SumWithin(pids: seq<int>, s: seq<int>, resident: int -> nat): nat {
    if |pids| == 0 then 0
    else
      SumWithin(pids[..|pids| - 1], s, resident)
      + (if pids[|pids| - 1] in s then resident(pids[|pids| - 1]) else 0)
  }

  lemma {:induction false} SumWithinGrows(pids: seq<int>, s: seq<int>, x: int, resident: int -> nat)
    requires Distinct(pids) && x !in s
    ensures SumWithin(pids, s + [x], resident) == SumWithin(pids, s, resident) + (if x in pids then resident(x) else 0)
  {
    if |pids| > 0 {
      var rest, last := pids[..|pids| - 1], pids[|pids| - 1];
      SumWithinGrows(rest, s, x, resident);
      assert pids == rest + [last];
      assert last in s + [x] <==> last in s || last == x;
    }
  }

  lemma {:induction false} SumWithinNothing(pids: seq<int>, resident: int -> nat)
    ensures SumWithin(pids, [], resident) == 0
  {
    if |pids| > 0 {
      SumWithinNothing(pids[..|pids| - 1], resident);
    }
  }

  /** Adding up distinct processes in any order is adding them up along the snapshot. */
  lemma {:induction false} SumOfWithin(pids: seq<int>, s: seq<int>, resident: int -> nat)
    requires Distinct(pids) && Distinct(s) && forall k :: 0 <= k < |s| ==> s[k] in pids
    ensures SumOf(s, resident) == SumWithin(pids, s, resident)
  {
    if |s| == 0 {
      SumWithinNothing(pids, resident);
    } else {
      var rest, last := s[..|s| - 1], s[|s| - 1];
      assert s == rest + [last];
      assert last !in rest;
      SumOfWithin(pids, rest, resident);
      SumWithinGrows(pids, rest, last, resident);
    }
  }

  lemma {:induction false} WithinIsDescendants(pids: seq<int>, parents: seq<int>, self: int, s: seq<int>,
                                                resident: int -> nat, n: nat)
    requires |pids| == |parents| && n <= |pids|
    requires forall i :: 0 <= i < |pids| ==> (pids[i] in s <==> Descends(pids, parents, self, pids[i]))
    ensures SumWithin(pids[..n], s, resident) == DescendantsTotal(pids, parents, self, resident, n)
  {
    if n > 0 {
      WithinIsDescendants(pids, parents, self, s, resident, n - 1);
      assert pids[..n][..n - 1] == pids[..n - 1];
    }
  }

  // ---------------------------------------------------------------- counting

  function Elements(s: seq<int>): set<int> {
    set x | x in s
  }

  lemma {:induction false} DistinctCount(s: seq<int>)
    requires Distinct(s)
    ensures |Elements(s)| == |s|
  {
    if |s| == 0 {
      assert Elements(s) == {};
    } else {
      var rest, last := s[..|s| - 1], s[|s| - 1];
      DistinctCount(rest);
      assert s == rest + [last];
      assert Elements(s) == Elements(rest) + {last};
      assert last !in rest;
    }
  }

  lemma SubsetCount(a: set<int>, b: set<int>)
    requires a <= b
    ensures |a| <= |b|
  {
    assert b == a + (b - a);
  }

  lemma DistinctFits(s: seq<int>, t: seq<int>)
    requires Distinct(s) && Distinct(t) && forall k :: 0 <= k < |s| ==> s[k] in t
    ensures |s| <= |t|
  {
    DistinctCount(s);
    DistinctCount(t);
    SubsetCount(Elements(s), Elements(t));
  }

  // ---------------------------------------------------------------- the walk

  /** The process sits at this place of the snapshot, and its parent was served before, or it is
      the one being served and the scan has passed the process. */
  predicate Placed(pids: seq<int>, parents: seq<int>, served: seq<int>, current: int, scanned: nat,
                   pid: int, place: nat)
    requires |pids| == |parents|
  {
    && place < |pids| && pids[place] == pid
    && (parents[place] in served || (parents[place] == current && place < scanned))
  }

  /** Each queued process has its place in the snapshot and came there through its parent. */
  predicate Queued(pids: seq<int>, parents: seq<int>, queue: seq<int>, places: seq<nat>, head: nat, scanned: nat)
    requires |pids| == |parents|
  {
    && |places| == |queue| && head < |queue|
    && Distinct(queue)
    && forall j :: 0 < j < |queue| ==> Placed(pids, parents, queue[..head], queue[head], scanned, queue[j], places[j])
  }

  /** Every child of a served process is queued, and so are the scanned ones of the process
      being served. */
  predicate Closed(pids: seq<int>, parents: seq<int>, queue: seq<int>, head: nat, scanned: nat)
    requires |pids| == |parents| && scanned <= |pids|
  {
    && head <= |queue|
    && (forall i :: 0 <= i < |pids| && parents[i] in queue[..head] ==> pids[i] in queue)
    && (forall i :: 0 <= i < scanned && head < |queue| && parents[i] == queue[head] ==> pids[i] in queue)
  }

  ghost predicate AllDescend(pids: seq<int>, parents: seq<int>, queue: seq<int>)
    requires |pids| == |parents|
  {
    |queue| > 0 && forall j :: 0 < j < |queue| ==> Descends(pids, parents, queue[0], queue[j])
  }

  lemma ChildDescends(pids: seq<int>, parents: seq<int>, self: int, i: nat)
    requires |pids| == |parents| && i < |pids|
    requires parents[i] == self || Descends(pids, parents, self, parents[i])
    ensures Descends(pids, parents, self, pids[i])
  {
    if parents[i] == self {
      assert IsLine(pids, parents, self, [i]);
    } else {
      var line :| IsLine(pids, parents, self, line) && pids[line[|line| - 1]] == parents[i];
      assert IsLine(pids, parents, self, line + [i]);
    }
  }

  /** A child the scan comes to is not in the queue yet. */
  lemma ChildIsNew(pids: seq<int>, parents: seq<int>, queue: seq<int>, places: seq<nat>, head: nat, i: nat)
    requires |pids| == |parents| && i < |pids|
    requires Queued(pids, parents, queue, places, head, i) && AllDescend(pids, parents, queue)
    requires Proper(pids, parents, queue[0]) && parents[i] == queue[head]
    ensures pids[i] !in queue
    ensures Descends(pids, parents, queue[0], pids[i])
  {
    ChildDescends(pids, parents, queue[0], i);
    assert queue[0] != pids[i];
    hide Descends, Distinct;
    assert queue[head] !in queue[..head] by { NotBefore(queue, head); }
    forall j | 0 < j < |queue|
      ensures queue[j] != pids[i]
    {
      assert Placed(pids, parents, queue[..head], queue[head], i, queue[j], places[j]);
      OnePlace(pids, places[j], i);
    }
  }

  lemma NotBefore(queue: seq<int>, head: nat)
    requires head < |queue| && Distinct(queue)
    ensures queue[head] !in queue[..head]
  {
  }

  lemma OnePlace(pids: seq<int>, i: nat, j: nat)
    requires Distinct(pids) && i < |pids| && j < |pids|
    ensures pids[i] == pids[j] ==> i == j
  {
  }

  /** There is room for it. */
  lemma QueueHasRoom(pids: seq<int>, parents: seq<int>, queue: seq<int>, places: seq<nat>, head: nat, i: nat)
    requires |pids| == |parents| && i < |pids|
    requires Queued(pids, parents, queue, places, head, i) && AllDescend(pids, parents, queue)
    requires Proper(pids, parents, queue[0]) && parents[i] == queue[head]
    ensures |queue| < MAX_PROCESSES
  {
    ChildIsNew(pids, parents, queue, places, head, i);
    hide Descends;
    var self, found := queue[0], queue[1..] + [pids[i]];
    assert Distinct(found);
    if self in pids {
      assert Distinct([self] + found);
      DistinctFits([self] + found, pids);
    } else {
      DistinctFits(found, pids);
    }
  }

  lemma EnqueueKeeps(pids: seq<int>, parents: seq<int>, queue: seq<int>, places: seq<nat>, head: nat, i: nat)
    requires |pids| == |parents| && i < |pids|
    requires Queued(pids, parents, queue, places, head, i) && Closed(pids, parents, queue, head, i)
    requires AllDescend(pids, parents, queue)
    requires Proper(pids, parents, queue[0]) && parents[i] == queue[head]
    ensures var longer := queue + [pids[i]];
      && Queued(pids, parents, longer, places + [i], head, i + 1) && Closed(pids, parents, longer, head, i + 1)
      && AllDescend(pids, parents, longer)
  {
    ChildIsNew(pids, parents, queue, places, head, i);
    assert head < |queue|;
    hide Descends, Proper, Queued, Closed, Distinct;
    EnqueueQueued(pids, parents, queue, places, head, i);
    EnqueueClosed(pids, parents, queue, head, i);
  }

  lemma EnqueueQueued(pids: seq<int>, parents: seq<int>, queue: seq<int>, places: seq<nat>, head: nat, i: nat)
    requires |pids| == |parents| && i < |pids|
    requires Queued(pids, parents, queue, places, head, i)
    requires pids[i] !in queue && parents[i] == queue[head]
    ensures Queued(pids, parents, queue + [pids[i]], places + [i], head, i + 1)
  {
    var longer := queue + [pids[i]];
    var served := queue[..head];
    assert longer[..head] == served;
    assert Distinct(longer);
    hide Distinct;
    forall j | 0 < j < |longer|
      ensures Placed(pids, parents, served, longer[head], i + 1, longer[j], (places + [i])[j])
    {
      if j < |queue| {
        assert Placed(pids, parents, served, queue[head], i, queue[j], places[j]);
      }
    }
  }

  lemma EnqueueClosed(pids: seq<int>, parents: seq<int>, queue: seq<int>, head: nat, i: nat)
    requires |pids| == |parents| && i < |pids| && head < |queue|
    requires Closed(pids, parents, queue, head, i)
    ensures Closed(pids, parents, queue + [pids[i]], head, i + 1)
  {
    var longer := queue + [pids[i]];
    assert longer[..head] == queue[..head];
    assert longer[head] == queue[head];
    assert forall x :: x in queue || x == pids[i] ==> x in longer;
  }

  lemma FullHasNoChild(pids: seq<int>, parents: seq<int>, queue: seq<int>, places: seq<nat>, head: nat, i: nat)
    requires |pids| == |parents| && i < |pids|
    requires Queued(pids, parents, queue, places, head, i) && AllDescend(pids, parents, queue)
    requires Proper(pids, parents, queue[0]) && |queue| == MAX_PROCESSES
    ensures parents[i] != queue[head]
  {
    hide Proper, AllDescend, Distinct;
    if parents[i] == queue[head] {
      QueueHasRoom(pids, parents, queue, places, head, i);
    }
  }

  /** When a queue runs full nothing that could still be scanned belongs into it. */
  lemma FullIsComplete(pids: seq<int>, parents: seq<int>, queue: seq<int>, places: seq<nat>, head: nat, i: nat)
    requires |pids| == |parents| && i <= |pids|
    requires Queued(pids, parents, queue, places, head, i) && Closed(pids, parents, queue, head, i)
    requires AllDescend(pids, parents, queue) && Proper(pids, parents, queue[0])
    requires |queue| == MAX_PROCESSES || i == |pids|
    ensures Closed(pids, parents, queue, head, |pids|)
  {
    hide Proper, AllDescend, Distinct;
    forall k | i <= k < |pids|
      ensures parents[k] != queue[head]
    {
      assert Queued(pids, parents, queue, places, head, k);
      FullHasNoChild(pids, parents, queue, places, head, k);
    }
  }

  lemma ServedKeeps(pids: seq<int>, parents: seq<int>, queue: seq<int>, places: seq<nat>, head: nat)
    requires |pids| == |parents|
    requires Queued(pids, parents, queue, places, head, |pids|) && Closed(pids, parents, queue, head, |pids|)
    ensures Closed(pids, parents, queue, head + 1, 0)
    ensures head + 1 < |queue| ==> Queued(pids, parents, queue, places, head + 1, 0)
  {
    hide Distinct;
    assert queue[..head + 1] == queue[..head] + [queue[head]];
  }

  /** A closed queue holds every descendant. */
  lemma {:induction false} LineIsQueued(pids: seq<int>, parents: seq<int>, queue: seq<int>, line: seq<nat>)
    requires |pids| == |parents| && |queue| > 0
    requires Closed(pids, parents, queue, |queue|, 0) && IsLine(pids, parents, queue[0], line)
    ensures pids[line[|line| - 1]] in queue
    decreases |line|
  {
    assert queue[..|queue|] == queue;
    if |line| > 1 {
      var shorter := line[..|line| - 1];
      assert IsLine(pids, parents, queue[0], shorter);
      LineIsQueued(pids, parents, queue, shorter);
    }
  }

  lemma QueuedIffDescends(pids: seq<int>, parents: seq<int>, queue: seq<int>, pid: int)
    requires |pids| == |parents| && |queue| > 0 && !Descends(pids, parents, queue[0], queue[0])
    requires Closed(pids, parents, queue, |queue|, 0) && AllDescend(pids, parents, queue)
    ensures pid in queue[1..] <==> Descends(pids, parents, queue[0], pid)
  {
    assert queue == [queue[0]] + queue[1..];
    if Descends(pids, parents, queue[0], pid) {
      var line :| IsLine(pids, parents, queue[0], line) && pids[line[|line| - 1]] == pid;
      hide Descends, AllDescend;
      LineIsQueued(pids, parents, queue, line);
    } else {
      hide Descends, Closed;
      assert forall j :: 0 < j < |queue| ==> queue[j] != pid;
    }
  }

  lemma QueueIsDescendants(pids: seq<int>, parents: seq<int>, queue: seq<int>, resident: int -> nat)
    requires |pids| == |parents| && |queue| > 0 && Proper(pids, parents, queue[0])
    requires Distinct(queue) && forall j :: 0 < j < |queue| ==> queue[j] in pids
    requires Closed(pids, parents, queue, |queue|, 0) && AllDescend(pids, parents, queue)
    ensures SumOf(queue[1..], resident) == DescendantsTotal(pids, parents, queue[0], resident, |pids|)
  {
    hide Descends, Closed, AllDescend;
    var self, found := queue[0], queue[1..];
    assert Distinct(found);
    assert Distinct(pids);
    forall i | 0 <= i < |pids|
      ensures pids[i] in found <==> Descends(pids, parents, self, pids[i])
    {
      QueuedIffDescends(pids, parents, queue, pids[i]);
    }
    hide Distinct, Proper;
    SumOfWithin(pids, found, resident);
    WithinIsDescendants(pids, parents, self, found, resident, |pids|);
    assert pids[..|pids|] == pids;
  }

  /** The state between two scans. */
  ghost predicate Walking(pids: seq<int>, parents: seq<int>, queue: seq<int>, places: seq<nat>, head: nat, scanned: nat)
    requires |pids| == |parents| && scanned <= |pids|
  {
    && head <= |queue| && AllDescend(pids, parents, queue)
    && Closed(pids, parents, queue, head, scanned) && Distinct(queue)
    && (forall j :: 0 < j < |queue| ==> queue[j] in pids)
    && (head < |queue| ==> Queued(pids, parents, queue, places, head, scanned))
  }

  lemma WalkStarts(pids: seq<int>, parents: seq<int>, self: int)
    requires |pids| == |parents|
    ensures Walking(pids, parents, [self], [0], 0, 0)
  {
  }

  lemma WalkEnqueues(pids: seq<int>, parents: seq<int>, queue: seq<int>, places: seq<nat>, head: nat, i: nat)
    requires |pids| == |parents| && i < |pids| && head < |queue|
    requires Walking(pids, parents, queue, places, head, i) && Proper(pids, parents, queue[0])
    requires parents[i] == queue[head]
    ensures Walking(pids, parents, queue + [pids[i]], places + [i], head, i + 1)
  {
    EnqueueKeeps(pids, parents, queue, places, head, i);
    hide Proper, Closed, AllDescend, Distinct;
  }

  lemma WalkPasses(pids: seq<int>, parents: seq<int>, queue: seq<int>, places: seq<nat>, head: nat, i: nat)
    requires |pids| == |parents| && i < |pids| && head < |queue|
    requires Walking(pids, parents, queue, places, head, i) && parents[i] != queue[head]
    ensures Walking(pids, parents, queue, places, head, i + 1)
  {
    hide AllDescend, Distinct;
  }

  lemma WalkServes(pids: seq<int>, parents: seq<int>, queue: seq<int>, places: seq<nat>, head: nat, i: nat)
    requires |pids| == |parents| && i <= |pids| && head < |queue|
    requires Walking(pids, parents, queue, places, head, i) && Proper(pids, parents, queue[0])
    requires |queue| == MAX_PROCESSES || i == |pids|
    ensures Walking(pids, parents, queue, places, head + 1, 0)
  {
    FullIsComplete(pids, parents, queue, places, head, i);
    assert Queued(pids, parents, queue, places, head, |pids|);
    hide Proper, AllDescend, Distinct, Queued, Closed;
    ServedKeeps(pids, parents, queue, places, head);
  }

  /** The memory of all processes below `self`: each once, no other, and the queue array is never
      left, whatever the snapshot says. */
  method DescendantsRssKb(pids: array<int>, parents: array<int>, count: nat, self: int, resident: int -> nat)
    returns (total: nat)
    requires pids.Length == parents.Length == MAX_PROCESSES && count <= MAX_PROCESSES
    ensures Proper(pids[..count], parents[..count], self) ==>
      total == DescendantsTotal(pids[..count], parents[..count], self, resident, count)
  {
    hide Proper, Walking, DescendantsTotal, SumOf;
    var queue := new int[MAX_PROCESSES];
    ghost var ps, qs := pids[..count], parents[..count];
    ghost var proper := Proper(ps, qs, self);
    ghost var places: seq<nat> := [0];
    var head, tail := 0, 0;
    total := 0;
    queue[tail] := self;
    tail := tail + 1;
    assert queue[..tail] == [self];
    WalkStarts(ps, qs, self);
    assert SumOf(queue[1..tail], resident) == 0 by { SumOfEmpty(queue[1..tail], resident); }
    while head < tail
      invariant 0 <= head <= tail <= MAX_PROCESSES && 1 <= tail && queue[0] == self
      invariant proper ==> Walking(ps, qs, queue[..tail], places, head, 0)
      invariant total == SumOf(queue[1..tail], resident)
      decreases MAX_PROCESSES - head
    {
      var parent := queue[head];
      var i := 0;
      while i < count && tail < MAX_PROCESSES
        invariant 0 <= i <= count && head < tail <= MAX_PROCESSES && queue[0] == self && queue[head] == parent
        invariant proper ==> Walking(ps, qs, queue[..tail], places, head, i)
        invariant total == SumOf(queue[1..tail], resident)
      {
        if parents[i] == parent {
          if proper {
            WalkEnqueues(ps, qs, queue[..tail], places, head, i);
          }
          places := places + [i];
          ghost var before, found := queue[..tail], queue[1..tail];
          queue[tail] := pids[i];
          tail := tail + 1;
          assert queue[..tail] == before + [pids[i]];
          assert queue[1..tail] == found + [pids[i]];
          SumOfAppend(found, pids[i], resident);
          total := total + resident(pids[i]);
        } else if proper {
          WalkPasses(ps, qs, queue[..tail], places, head, i);
        }
        i := i + 1;
      }
      if proper {
        WalkServes(ps, qs, queue[..tail], places, head, i);
      }
      head := head + 1;
    }
    if proper {
      assert queue[1..tail] == queue[..tail][1..];
      WalkEnds(ps, qs, queue[..tail], places, resident);
    }
  }

  lemma SumOfEmpty(s: seq<int>, resident: int -> nat)
    requires s == []
    ensures SumOf(s, resident) == 0
  {
  }

  lemma SumOfAppend(s: seq<int>, x: int, resident: int -> nat)
    ensures SumOf(s + [x], resident) == SumOf(s, resident) + resident(x)
  {
    assert (s + [x])[..|s|] == s;
  }

  lemma WalkEnds(pids: seq<int>, parents: seq<int>, queue: seq<int>, places: seq<nat>, resident: int -> nat)
    requires |pids| == |parents| && |queue| > 0
    requires Walking(pids, parents, queue, places, |queue|, 0) && Proper(pids, parents, queue[0])
    ensures SumOf(queue[1..], resident) == DescendantsTotal(pids, parents, queue[0], resident, |pids|)
  {
    QueueIsDescendants(pids, parents, queue, resident);
  }
}
