/** The bounded breadth-first search behind `CodemapQuery.path`. */
module CodemapPath {
  import opened Wrappers
  import opened Sequences

  /** Relations in their stored order, each from a source to a destination id. */
  type Relations = seq<(string, string)>

  ghost predicate Path(rels: Relations, p: seq<string>, start: string, goal: string)
  {
    && p != [] && p[0] == start && p[|p| - 1] == goal
    && forall k | 0 < k < |p| :: (p[k - 1], p[k]) in rels
  }

  ghost predicate Reachable(rels: Relations, start: string, goal: string)
  {
    exists p :: Path(rels, p, start, goal)
  }

  function Ids(rels: Relations, start: string): set<string>
  {
    {start} + (set r | r in rels :: r.1)
  }

  /** All ids some relation path leads to. */
  ghost function ReachSet(rels: Relations, start: string): set<string>
  {
    set x | x in Ids(rels, start) && Reachable(rels, start, x)
  }

  /** All ids some path of at most `n` steps leads to. */
  ghost function Near(rels: Relations, start: string, n: nat): set<string>
  {
    set x | x in Ids(rels, start) && Within(rels, start, x, n)
  }

  ghost predicate Within(rels: Relations, start: string, x: string, n: nat)
  {
    exists p :: Path(rels, p, start, x) && |p| <= n + 1
  }

  lemma {:induction false} PathEndsInId(rels: Relations, start: string, x: string, p: seq<string>)
    requires Path(rels, p, start, x)
    ensures x in Ids(rels, start)
  {
    if |p| > 1 { assert (p[|p| - 2], p[|p| - 1]) in rels; }
  }

  // ----- the state of the search -----

  /** `dist` is the depth at which an id was found. */
  ghost predicate Found(rels: Relations, start: string, prev: map<string, Option<string>>, dist: map<string, nat>)
  {
    && (forall x :: x in dist <==> x in prev)
    && start in prev && prev[start] == None && dist[start] == 0
    && forall x | x in prev && x != start ::
         && prev[x].Some? && prev[x].value in prev
         && (prev[x].value, x) in rels && dist[x] == dist[prev[x].value] + 1
  }

  /** The queue is in order of depth, and spans two depths at most. */
  ghost predicate Queued(prev: map<string, Option<string>>, dist: map<string, nat>, queue: seq<string>)
  {
    && (forall x | x in queue :: x in prev && x in dist)
    && (forall i, j | 0 <= i < j < |queue| :: dist[queue[i]] <= dist[queue[j]])
    && (forall i, j | 0 <= i < j < |queue| :: queue[i] != queue[j])
    && (forall i | 0 <= i < |queue| :: dist[queue[i]] <= dist[queue[0]] + 1)
  }

  /** Everything one step from an id that is no longer queued has been found, no more than one deeper. */
  ghost predicate Expanded(
    rels: Relations, prev: map<string, Option<string>>, dist: map<string, nat>, queue: seq<string>)
  {
    forall r | r in rels && r.0 in prev && r.0 !in queue ::
      r.0 in dist && r.1 in prev && r.1 in dist && dist[r.1] <= dist[r.0] + 1
  }

  ghost predicate Searching(
    rels: Relations, start: string, prev: map<string, Option<string>>, dist: map<string, nat>, queue: seq<string>)
  {
    && Found(rels, start, prev, dist) && Queued(prev, dist, queue) && Expanded(rels, prev, dist, queue)
    && (queue != [] ==> forall x | x in prev :: dist[x] <= dist[queue[0]] + 1)
  }

  /** A path no longer than the depth of every queued id ends in an id found at most that deep. */
  lemma {:induction false} ShortPathsAreFound(
    rels: Relations, start: string, prev: map<string, Option<string>>, dist: map<string, nat>, queue: seq<string>,
    depth: nat, p: seq<string>, x: string)
    requires Found(rels, start, prev, dist) && Expanded(rels, prev, dist, queue)
    requires forall q | q in queue :: q in dist && dist[q] >= depth
    requires Path(rels, p, start, x) && |p| - 1 <= depth
    ensures x in prev && x in dist && dist[x] <= |p| - 1
    decreases |p|
  {
    if |p| > 1 {
      var y := p[|p| - 2];
      assert Path(rels, p[..|p| - 1], start, y);
      ShortPathsAreFound(rels, start, prev, dist, queue, depth, p[..|p| - 1], y);
      assert (y, x) in rels;
    }
  }

  /** An id that is found but not expanded, or found by a finished search, has no shorter path. */
  lemma {:induction false} FoundIsShortest(
    rels: Relations, start: string, prev: map<string, Option<string>>, dist: map<string, nat>, queue: seq<string>,
    goal: string, p: seq<string>)
    requires Searching(rels, start, prev, dist, queue) && goal in prev
    requires queue == [] || goal in queue
    requires Path(rels, p, start, goal)
    ensures dist[goal] <= |p| - 1
  {
    var depth := if queue == [] then |p| - 1 else dist[queue[0]];
    if |p| - 1 <= depth {
      ShortPathsAreFound(rels, start, prev, dist, queue, depth, p, goal);
    }
  }

  /** A finished search has found everything reachable. */
  lemma {:induction false} FinishedFindsAll(
    rels: Relations, start: string, prev: map<string, Option<string>>, dist: map<string, nat>, goal: string)
    requires Searching(rels, start, prev, dist, []) && Reachable(rels, start, goal)
    ensures goal in prev
  {
    var p :| Path(rels, p, start, goal);
    ShortPathsAreFound(rels, start, prev, dist, [], |p| - 1, p, goal);
  }

  /** What is found is reachable. */
  lemma {:induction false} FoundIsReachable(
    rels: Relations, start: string, prev: map<string, Option<string>>, dist: map<string, nat>, x: string)
    returns (p: seq<string>)
    requires Found(rels, start, prev, dist) && x in prev
    ensures Path(rels, p, start, x) && |p| == dist[x] + 1
    decreases if x in dist then dist[x] else 0
  {
    if x == start {
      p := [start];
    } else {
      var front := FoundIsReachable(rels, start, prev, dist, prev[x].value);
      p := front + [x];
    }
  }

  lemma {:induction false} FoundInReachSet(
    rels: Relations, start: string, prev: map<string, Option<string>>, dist: map<string, nat>)
    requires Found(rels, start, prev, dist)
    ensures prev.Keys <= ReachSet(rels, start) && |prev| <= |ReachSet(rels, start)|
  {
    forall x | x in prev ensures x in ReachSet(rels, start) {
      var p := FoundIsReachable(rels, start, prev, dist, x);
      if x != start {
        var r := (prev[x].value, x);
        assert r in rels && r.1 == x;
      }
    }
    SubsetCard(prev.Keys, ReachSet(rels, start));
  }

  // ----- the search -----

  /** `cur` has left the queue, and the first `i` relations have been followed from it. */
  ghost predicate Expanding(rels: Relations, start: string, prev: map<string, Option<string>>, dist: map<string, nat>,
                            queue: seq<string>, cur: string, i: nat)
    requires i <= |rels|
  {
    && Found(rels, start, prev, dist) && cur in prev && cur !in queue
    && (forall x | x in queue :: x in prev && dist[cur] <= dist[x])
    && (forall j, k | 0 <= j < k < |queue| :: dist[queue[j]] <= dist[queue[k]])
    && (forall j, k | 0 <= j < k < |queue| :: queue[j] != queue[k])
    && (forall x | x in prev :: dist[x] <= dist[cur] + 1)
    && (forall r | r in rels && r.0 in prev && r.0 !in queue && r.0 != cur ::
          r.1 in prev && dist[r.1] <= dist[r.0] + 1)
    && forall k | 0 <= k < i :: rels[k].0 == cur ==> rels[k].1 in prev
  }

  lemma {:induction false} ExpandingStarts(
    rels: Relations, start: string, prev: map<string, Option<string>>, dist: map<string, nat>, queue: seq<string>,
    cur: string)
    requires Searching(rels, start, prev, dist, [cur] + queue)
    ensures Expanding(rels, start, prev, dist, queue, cur, 0)
  {
    var whole := [cur] + queue;
    assert whole[0] == cur && cur in whole;
    assert forall x :: x in whole <==> x == cur || x in queue;
    assert forall k | 0 <= k < |queue| :: whole[k + 1] == queue[k];
    forall x | x in queue ensures x != cur && dist[cur] <= dist[x] {
      var k :| 0 <= k < |queue| && queue[k] == x;
      assert whole[k + 1] == x;
    }
  }

  lemma {:induction false} ExpandingAdds(
    rels: Relations, start: string, prev: map<string, Option<string>>, dist: map<string, nat>, queue: seq<string>,
    cur: string, i: nat)
    requires i < |rels| && Expanding(rels, start, prev, dist, queue, cur, i)
    requires rels[i].0 == cur && rels[i].1 !in prev
    ensures var nxt := rels[i].1;
            Expanding(rels, start, prev[nxt := Some(cur)], dist[nxt := dist[cur] + 1], queue + [nxt], cur, i + 1)
  {
    var nxt := rels[i].1;
    var prev', dist', queue' := prev[nxt := Some(cur)], dist[nxt := dist[cur] + 1], queue + [nxt];
    assert rels[i] in rels && rels[i] == (cur, nxt);
    assert nxt !in queue;
    assert Found(rels, start, prev', dist');
    assert forall x :: x in queue' <==> x in queue || x == nxt;
  }

  lemma {:induction false} ExpandingSkips(
    rels: Relations, start: string, prev: map<string, Option<string>>, dist: map<string, nat>, queue: seq<string>,
    cur: string, i: nat)
    requires i < |rels| && Expanding(rels, start, prev, dist, queue, cur, i)
    ensures rels[i].0 != cur || rels[i].1 in prev ==> Expanding(rels, start, prev, dist, queue, cur, i + 1)
    ensures cur in dist
  {
  }

  lemma {:induction false} ExpandingEnds(
    rels: Relations, start: string, prev: map<string, Option<string>>, dist: map<string, nat>, queue: seq<string>,
    cur: string)
    requires Expanding(rels, start, prev, dist, queue, cur, |rels|)
    ensures Searching(rels, start, prev, dist, queue)
  {
    forall r | r in rels && r.0 in prev && r.0 !in queue
      ensures r.1 in prev && dist[r.1] <= dist[r.0] + 1
    {
      var k :| 0 <= k < |rels| && rels[k] == r;
    }
    if queue != [] { assert queue[0] in queue; }
  }

  /** What was found since is queued. */
  ghost predicate AllQueued(prev: map<string, Option<string>>, queue: seq<string>, prev': map<string, Option<string>>,
                            queue': seq<string>)
  {
    |prev'| - |queue'| == |prev| - |queue| && forall x | x in prev' && x !in queue' :: x in prev && x !in queue
  }

  lemma {:induction false} QueuedToo(prev: map<string, Option<string>>, queue: seq<string>,
                                     prev': map<string, Option<string>>, queue': seq<string>, nxt: string, cur: string)
    requires AllQueued(prev, queue, prev', queue') && nxt !in prev'
    ensures AllQueued(prev, queue, prev'[nxt := Some(cur)], queue' + [nxt])
  {
    assert forall x :: x in queue' + [nxt] <==> x in queue' || x == nxt;
  }

  /** What was found stays, and what was found since lies one step deeper than `cur`. */
  ghost predicate OneDeeper(prev: map<string, Option<string>>, dist: map<string, nat>, cur: string,
                            prev': map<string, Option<string>>, dist': map<string, nat>)
  {
    && cur in dist && cur in prev && prev.Keys <= prev'.Keys
    && forall x | x in prev' && x in dist' ::
         if x in prev then x in dist && dist'[x] == dist[x] else dist'[x] == dist[cur] + 1
  }

  lemma {:induction false} DeeperToo(prev: map<string, Option<string>>, dist: map<string, nat>, cur: string,
                                      prev': map<string, Option<string>>, dist': map<string, nat>, nxt: string)
    requires OneDeeper(prev, dist, cur, prev', dist') && cur in prev && cur in prev' && cur in dist' && nxt !in prev'
    requires nxt !in prev
    ensures OneDeeper(prev, dist, cur, prev'[nxt := Some(cur)], dist'[nxt := dist'[cur] + 1])
  {
  }

  /** Finds what lies one step from `cur`, which has just left the front of the queue. */
  method Expand(rels: Relations, start: string, prev: map<string, Option<string>>, ghost dist: map<string, nat>,
                queue: seq<string>, cur: string)
    returns (prev': map<string, Option<string>>, ghost dist': map<string, nat>, queue': seq<string>)
    requires Searching(rels, start, prev, dist, [cur] + queue)
    ensures Searching(rels, start, prev', dist', queue')
    ensures |prev'| - |queue'| == |prev| - |queue|
    ensures forall x | x in prev' && x !in queue' :: x in prev && x !in queue
    ensures OneDeeper(prev, dist, cur, prev', dist')
  {
    prev', dist', queue' := prev, dist, queue;
    ExpandingStarts(rels, start, prev, dist, queue, cur);
    for i := 0 to |rels|
      invariant Expanding(rels, start, prev', dist', queue', cur, i) && AllQueued(prev, queue, prev', queue')
      invariant OneDeeper(prev, dist, cur, prev', dist')
    {
      var (src, nxt) := rels[i];
      ExpandingSkips(rels, start, prev', dist', queue', cur, i);
      if src == cur && nxt !in prev' {
        ExpandingAdds(rels, start, prev', dist', queue', cur, i);
        QueuedToo(prev, queue, prev', queue', nxt, cur);
        DeeperToo(prev, dist, cur, prev', dist', nxt);
        prev', dist', queue' := prev'[nxt := Some(cur)], dist'[nxt := dist'[cur] + 1], queue' + [nxt];
      }
    }
    ExpandingEnds(rels, start, prev', dist', queue', cur);
  }

  /** Fewer ids are expanded than exist. */
  lemma {:induction false} NotMoreThanIds(
    rels: Relations, start: string, prev: map<string, Option<string>>, dist: map<string, nat>)
    requires Found(rels, start, prev, dist)
    ensures |prev| <= |Ids(rels, start)|
  {
    FoundInReachSet(rels, start, prev, dist);
    SubsetCard(ReachSet(rels, start), Ids(rels, start));
  }

  /** Follows the `prev` links back to the start. */
  method Chain(
    rels: Relations, start: string, goal: string, prev: map<string, Option<string>>, ghost dist: map<string, nat>)
    returns (chain: seq<string>)
    requires Found(rels, start, prev, dist) && goal in prev
    ensures Path(rels, chain, start, goal) && |chain| == dist[goal] + 1
  {
    var cur := Some(goal);
    chain := [];
    while cur.Some?
      invariant cur.Some? ==> cur.value in prev && |chain| + dist[cur.value] == dist[goal]
      invariant cur.Some? && chain != [] ==> (cur.value, chain[0]) in rels
      invariant cur.Some? && chain == [] ==> cur.value == goal
      invariant chain != [] ==> chain[|chain| - 1] == goal
      invariant forall k | 0 < k < |chain| :: (chain[k - 1], chain[k]) in rels
      invariant cur.None? ==> chain != [] && chain[0] == start && |chain| == dist[goal] + 1
      decreases if cur.Some? then 1 + dist[cur.value] else 0
    {
      chain := [cur.value] + chain;
      cur := prev[cur.value];
    }
  }

  /** Everything nearer than what the queue holds has been found. */
  lemma {:induction false} NearIsFound(
    rels: Relations, start: string, prev: map<string, Option<string>>, dist: map<string, nat>, queue: seq<string>,
    n: nat)
    requires Searching(rels, start, prev, dist, queue) && queue != [] && n <= dist[queue[0]]
    ensures |Near(rels, start, n)| <= |prev|
  {
    forall x | x in Near(rels, start, n) ensures x in prev.Keys {
      var p :| Path(rels, p, start, x) && |p| <= n + 1;
      ShortPathsAreFound(rels, start, prev, dist, queue, dist[queue[0]], p, x);
    }
    SubsetCard(Near(rels, start, n), prev.Keys);
  }

  /** What is found is no farther than what is missed. */
  lemma {:induction false} MissedIsFarther(
    rels: Relations, start: string, prev: map<string, Option<string>>, dist: map<string, nat>, queue: seq<string>,
    goal: string, p: seq<string>)
    requires Searching(rels, start, prev, dist, queue) && goal !in prev && Path(rels, p, start, goal)
    ensures queue != [] && |prev| <= |Near(rels, start, |p| - 1)|
  {
    if queue == [] { FinishedFindsAll(rels, start, prev, dist, goal); }
    if |p| - 1 <= dist[queue[0]] {
      ShortPathsAreFound(rels, start, prev, dist, queue, dist[queue[0]], p, goal);
    }
    forall x | x in prev.Keys ensures x in Near(rels, start, |p| - 1) {
      var q := FoundIsReachable(rels, start, prev, dist, x);
      PathEndsInId(rels, start, x, q);
    }
    SubsetCard(prev.Keys, Near(rels, start, |p| - 1));
  }

  lemma {:induction false} MissedIsFar(
    rels: Relations, start: string, prev: map<string, Option<string>>, dist: map<string, nat>, queue: seq<string>,
    goal: string, limit: int)
    requires Searching(rels, start, prev, dist, queue) && goal !in prev && (queue == [] || |prev| >= limit * 4)
    ensures forall p | Path(rels, p, start, goal) :: |Near(rels, start, |p| - 1)| >= limit * 4
  {
    forall p | Path(rels, p, start, goal) ensures |Near(rels, start, |p| - 1)| >= limit * 4 {
      MissedIsFarther(rels, start, prev, dist, queue, goal, p);
    }
  }

  /** A goal found lies behind fewer ids than the bound. */
  ghost predicate InBound(
    rels: Relations, start: string, prev: map<string, Option<string>>, dist: map<string, nat>, goal: string, limit: int)
  {
    goal in prev && goal in dist && dist[goal] > 0 ==> |Near(rels, start, dist[goal] - 1)| < limit * 4
  }

  lemma {:induction false} StaysInBound(
    rels: Relations, start: string, prev: map<string, Option<string>>, dist: map<string, nat>, queue: seq<string>,
    prev': map<string, Option<string>>, dist': map<string, nat>, goal: string, limit: int)
    requires Searching(rels, start, prev, dist, queue) && queue != [] && |prev| < limit * 4
    requires InBound(rels, start, prev, dist, goal, limit)
    requires forall x | x in prev' && x in dist' ::
               if x in prev then x in dist && dist'[x] == dist[x] else dist'[x] == dist[queue[0]] + 1
    ensures InBound(rels, start, prev', dist', goal, limit)
  {
    if goal in prev' && goal in dist' && goal !in prev {
      NearIsFound(rels, start, prev, dist, queue, dist[queue[0]]);
    }
  }

  /** The shortest node path from `start` to `goal`, unless the bound on found nodes stops the search. */
  method ShortestPath(rels: Relations, start: string, goal: string, limit: int) returns (chain: Option<seq<string>>)
    // whatever the bound, a chain is a path, and no path is shorter
    ensures chain.Some? ==> Path(rels, chain.value, start, goal)
    ensures chain.Some? ==> forall p | Path(rels, p, start, goal) :: |chain.value| <= |p|
    // without one, too many ids lie as near as the goal, whatever path leads to it
    ensures chain.None? ==> forall p | Path(rels, p, start, goal) :: |Near(rels, start, |p| - 1)| >= limit * 4
    // and with one, fewer than that lie nearer
    ensures chain.Some? ==> |chain.value| == 1 || |Near(rels, start, |chain.value| - 2)| < limit * 4
  {
    var prev: map<string, Option<string>> := map[start := None];
    ghost var dist: map<string, nat> := map[start := 0];
    var queue := [start];
    while queue != [] && |prev| < limit * 4
      invariant Searching(rels, start, prev, dist, queue)
      invariant goal in prev ==> goal in queue
      invariant InBound(rels, start, prev, dist, goal, limit)
      decreases |Ids(rels, start)| - (|prev| - |queue|)
    {
      var cur, rest := queue[0], queue[1..];
      if cur == goal { break; }
      assert queue == [cur] + rest;
      NotMoreThanIds(rels, start, prev, dist);
      ghost var before, depths, was := prev, dist, queue;
      prev, dist, queue := Expand(rels, start, prev, dist, rest, cur);
      StaysInBound(rels, start, before, depths, was, prev, dist, goal, limit);
    }
    if goal !in prev {
      MissedIsFar(rels, start, prev, dist, queue, goal, limit);
      return None;
    }
    var p := Chain(rels, start, goal, prev, dist);
    forall q | Path(rels, q, start, goal) ensures |p| <= |q| {
      FoundIsShortest(rels, start, prev, dist, queue, goal, q);
    }
    return Some(p);
  }
}
