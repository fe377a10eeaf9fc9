/** The launch order of pipes: Kahn's algorithm with ties broken by (line, name). */
module PipeOrder {
  import opened Sequences

  // ----- the key -----

  function LineOf(lines: map<string, int>, name: string): int
  {
    if name in lines then lines[name] else 0
  }

  predicate KeyLess(lines: map<string, int>, a: string, b: string)
  {
    LineOf(lines, a) < LineOf(lines, b) || (LineOf(lines, a) == LineOf(lines, b) && NameLess(a, b))
  }

  /** The key is a strict total order. */
  lemma {:induction false} KeyOrder(lines: map<string, int>, a: string, b: string)
    ensures !(KeyLess(lines, a, b) && KeyLess(lines, b, a))
    ensures a == b || KeyLess(lines, a, b) || KeyLess(lines, b, a)
    ensures !KeyLess(lines, a, a)
  {
    NameOrder(a, b);
    NameOrder(a, a);
  }

  lemma {:induction false} KeyTransitive(lines: map<string, int>, a: string, b: string, c: string)
    requires KeyLess(lines, a, b) && KeyLess(lines, b, c)
    ensures KeyLess(lines, a, c)
  {
    if LineOf(lines, a) == LineOf(lines, c) { NameTransitive(a, b, c); }
  }

  /** A name without a line counts as on line 0. */
  lemma {:induction false} WithoutLine(lines: map<string, int>, a: string, b: string)
    requires a !in lines
    ensures KeyLess(lines, a, b) == KeyLess(lines[a := 0], a, b) && KeyLess(lines, b, a) == KeyLess(lines[a := 0], b, a)
  {
  }

  // ----- the graph -----

  type Edges = seq<(string, string)>

  ghost predicate NoDup(s: seq<string>)
  {
    forall i, j | 0 <= i < j < |s| :: s[i] != s[j]
  }

  /** An edge counts when both ends are listed and differ. */
  predicate Edge(nodes: seq<string>, edges: Edges, u: string, v: string)
  {
    (u, v) in edges && u in nodes && v in nodes && u != v
  }

  /** Consecutive edges lead from the first to the last name. */
  ghost predicate Walk(nodes: seq<string>, edges: Edges, w: seq<string>)
  {
    w != [] && forall k | 0 < k < |w| :: Edge(nodes, edges, w[k - 1], w[k])
  }

  /** The walk starts by going round a cycle. */
  ghost predicate Loops(w: seq<string>)
  {
    exists j :: 0 < j < |w| && w[j] == w[0]
  }

  /** `v` lies on a cycle or downstream of one. */
  ghost predicate BehindCycle(nodes: seq<string>, edges: Edges, v: string)
  {
    exists w :: Walk(nodes, edges, w) && w[|w| - 1] == v && Loops(w)
  }

  ghost predicate Acyclic(nodes: seq<string>, edges: Edges)
  {
    forall v | v in nodes :: !BehindCycle(nodes, edges, v)
  }

  ghost predicate Before(order: seq<string>, u: string, v: string)
  {
    exists i, j :: 0 <= i < j < |order| && order[i] == u && order[j] == v
  }

  ghost predicate SameNames(s: seq<string>, t: seq<string>)
  {
    NoDup(s) && NoDup(t) && forall x :: x in s <==> x in t
  }

  ghost predicate TopologicalOrder(nodes: seq<string>, edges: Edges, t: seq<string>)
  {
    SameNames(t, nodes) && forall u, v | Edge(nodes, edges, u, v) :: Before(t, u, v)
  }

  /** At the first position where the orders differ, `s` has the smaller key. */
  ghost predicate LexLeast(lines: map<string, int>, s: seq<string>, t: seq<string>)
  {
    s == t || exists k :: 0 <= k < |s| && k < |t| && s[..k] == t[..k] && KeyLess(lines, s[k], t[k])
  }

  // ----- the greedy prefix -----

  ghost predicate Ready(nodes: seq<string>, edges: Edges, done: seq<string>, v: string)
  {
    v in nodes && v !in done && forall u | Edge(nodes, edges, u, v) :: u in done
  }

  /** Each name was ready, and the least ready name, when it was taken. */
  ghost predicate Greedy(nodes: seq<string>, edges: Edges, lines: map<string, int>, done: seq<string>)
  {
    forall k | 0 <= k < |done| ::
      && Ready(nodes, edges, done[..k], done[k])
      && forall v | Ready(nodes, edges, done[..k], v) :: v == done[k] || KeyLess(lines, done[k], v)
  }

  lemma {:induction false} GreedyNoDup(nodes: seq<string>, edges: Edges, lines: map<string, int>, done: seq<string>)
    requires Greedy(nodes, edges, lines, done)
    ensures NoDup(done) && forall x | x in done :: x in nodes
  {
    forall i, j | 0 <= i < j < |done| ensures done[i] != done[j] {
      assert Ready(nodes, edges, done[..j], done[j]);
      assert done[..j][i] == done[i];
    }
    forall x | x in done ensures x in nodes {
      var k :| 0 <= k < |done| && done[k] == x;
      assert Ready(nodes, edges, done[..k], done[k]);
    }
  }

  /** Predecessors of a taken name were taken before it. */
  lemma {:induction false} GreedyPredecessor(
    nodes: seq<string>, edges: Edges, lines: map<string, int>, done: seq<string>, u: string, k: nat)
    returns (i: nat)
    requires Greedy(nodes, edges, lines, done) && k < |done| && Edge(nodes, edges, u, done[k])
    ensures i < k && done[i] == u
  {
    assert Ready(nodes, edges, done[..k], done[k]);
    i :| 0 <= i < k && done[..k][i] == u;
  }

  // ----- cycles -----

  /** Along a walk that ends in a taken name, positions in the order increase. */
  lemma {:induction false} WalkIntoDone(nodes: seq<string>, edges: Edges, lines: map<string, int>, done: seq<string>,
                                        w: seq<string>, k: nat)
    returns (at: seq<nat>)
    requires Greedy(nodes, edges, lines, done) && Walk(nodes, edges, w) && k < |done| && w[|w| - 1] == done[k]
    ensures |at| == |w| && at[|at| - 1] == k
    ensures forall i | 0 <= i < |w| :: at[i] < |done| && done[at[i]] == w[i]
    ensures forall i | 0 < i < |w| :: at[i - 1] < at[i]
    decreases |w|
  {
    if |w| == 1 {
      at := [k];
    } else {
      var i := GreedyPredecessor(nodes, edges, lines, done, w[|w| - 2], k);
      var front := WalkIntoDone(nodes, edges, lines, done, w[..|w| - 1], i);
      at := front + [k];
    }
  }

  lemma {:induction false} Increasing(at: seq<nat>, j: nat)
    requires 0 < j < |at| && forall i | 0 < i < |at| :: at[i - 1] < at[i]
    ensures at[0] < at[j]
    decreases j
  {
    if j > 1 { Increasing(at, j - 1); }
  }

  lemma {:induction false} DoneIsNotBehindCycle(
    nodes: seq<string>, edges: Edges, lines: map<string, int>, done: seq<string>, v: string)
    requires Greedy(nodes, edges, lines, done) && v in done
    ensures !BehindCycle(nodes, edges, v)
  {
    forall w | Walk(nodes, edges, w) && w[|w| - 1] == v && Loops(w) ensures false {
      var k :| 0 <= k < |done| && done[k] == v;
      var at := WalkIntoDone(nodes, edges, lines, done, w, k);
      var j :| 0 < j < |w| && w[j] == w[0];
      assert done[at[0]] == done[at[j]];
      GreedyNoDup(nodes, edges, lines, done);
      Increasing(at, j);
    }
  }

  /** From a name that never became ready one can walk backwards for ever. */
  lemma {:induction false} BackWalk(
    nodes: seq<string>, edges: Edges, done: seq<string>, v: string, n: nat)
    returns (w: seq<string>)
    requires forall x :: !Ready(nodes, edges, done, x)
    requires v in nodes && v !in done
    ensures Walk(nodes, edges, w) && |w| == n + 1 && w[n] == v
    ensures forall x | x in w :: x in nodes
    decreases n
  {
    if n == 0 {
      w := [v];
    } else {
      assert !Ready(nodes, edges, done, v);
      var u :| Edge(nodes, edges, u, v) && u !in done;
      var front := BackWalk(nodes, edges, done, u, n - 1);
      w := front + [v];
    }
  }

  lemma {:induction false} NoDupCard(s: seq<string>)
    requires NoDup(s)
    ensures |set x | x in s| == |s|
    decreases s
  {
    if s != [] {
      var front := s[..|s| - 1];
      NoDupCard(front);
      assert (set x | x in s) == (set x | x in front) + {s[|s| - 1]};
    }
  }

  lemma {:induction false} SetOfSeqCard(s: seq<string>)
    ensures |set x | x in s| <= |s|
    decreases s
  {
    if s != [] {
      var front := s[..|s| - 1];
      SetOfSeqCard(front);
      assert (set x | x in s) == (set x | x in front) + {s[|s| - 1]};
    }
  }

  lemma {:induction false} LeftoverIsBehindCycle(nodes: seq<string>, edges: Edges, done: seq<string>, v: string)
    requires forall x :: !Ready(nodes, edges, done, x)
    requires v in nodes && v !in done
    ensures BehindCycle(nodes, edges, v)
  {
    var w := BackWalk(nodes, edges, done, v, |nodes|);
    SetOfSeqCard(nodes);
    var i, j := Pigeonhole((set x | x in nodes), w);
    var tail := w[i..];
    assert tail[j - i] == tail[0];
    assert Walk(nodes, edges, tail) && tail[|tail| - 1] == v && Loops(tail);
  }

  // ----- the whole order -----

  /** A greedy prefix that cannot be extended, and behind it the other names in their given order. */
  ghost predicate KahnOrder(
    nodes: seq<string>, edges: Edges, lines: map<string, int>, done: seq<string>, rank: seq<string>)
  {
    && Greedy(nodes, edges, lines, done)
    && (forall x :: !Ready(nodes, edges, done, x))
    && rank == done + Others(nodes, done)
  }

  function Others(nodes: seq<string>, done: seq<string>): seq<string>
  {
    if nodes == [] then []
    else (if nodes[0] in done then [] else [nodes[0]]) + Others(nodes[1..], done)
  }

  lemma {:induction false} OthersAre(nodes: seq<string>, done: seq<string>)
    requires NoDup(nodes)
    ensures NoDup(Others(nodes, done))
    ensures forall x :: x in Others(nodes, done) <==> x in nodes && x !in done
    decreases nodes
  {
    if nodes != [] {
      OthersAre(nodes[1..], done);
      assert forall x :: x in nodes <==> x == nodes[0] || x in nodes[1..];
      assert nodes[0] !in nodes[1..];
    }
  }

  lemma {:induction false} NoDupJoin(s: seq<string>, t: seq<string>)
    requires NoDup(s) && NoDup(t) && forall x | x in s :: x !in t
    ensures NoDup(s + t)
  {
    forall i, j | 0 <= i < j < |s + t| ensures (s + t)[i] != (s + t)[j] {
      if i < |s| <= j { assert (s + t)[i] in s && (s + t)[j] in t; }
    }
  }

  /** The order lists each name once. */
  lemma {:induction false} KahnIsPermutation(
    nodes: seq<string>, edges: Edges, lines: map<string, int>, done: seq<string>, rank: seq<string>)
    requires NoDup(nodes) && KahnOrder(nodes, edges, lines, done, rank)
    ensures SameNames(rank, nodes)
  {
    GreedyNoDup(nodes, edges, lines, done);
    OthersAre(nodes, done);
    NoDupJoin(done, Others(nodes, done));
  }

  /** Exactly the names on or downstream of a cycle are left over. */
  lemma {:induction false} LeftoversAreBehindCycles(
    nodes: seq<string>, edges: Edges, lines: map<string, int>, done: seq<string>, rank: seq<string>, v: string)
    requires KahnOrder(nodes, edges, lines, done, rank) && v in nodes
    ensures v !in done <==> BehindCycle(nodes, edges, v)
  {
    if v in done {
      DoneIsNotBehindCycle(nodes, edges, lines, done, v);
    } else {
      LeftoverIsBehindCycle(nodes, edges, done, v);
    }
  }

  /** Every edge into a name that no cycle leads to is respected. */
  lemma {:induction false} KahnRespectsEdges(
    nodes: seq<string>, edges: Edges, lines: map<string, int>, done: seq<string>, rank: seq<string>, u: string,
    v: string)
    requires KahnOrder(nodes, edges, lines, done, rank)
    requires Edge(nodes, edges, u, v) && !BehindCycle(nodes, edges, v)
    ensures Before(rank, u, v)
  {
    LeftoversAreBehindCycles(nodes, edges, lines, done, rank, v);
    var k :| 0 <= k < |done| && done[k] == v;
    var i := GreedyPredecessor(nodes, edges, lines, done, u, k);
    assert rank[i] == u && rank[k] == v;
  }

  lemma {:induction false} FirstIsIn(s: seq<string>)
    ensures s != [] ==> s[0] in s
  {
  }

  /** Without cycles the order comes first, by key, among all topological orders. */
  lemma {:induction false} KahnIsLeast(
    nodes: seq<string>, edges: Edges, lines: map<string, int>, done: seq<string>, rank: seq<string>, t: seq<string>)
    requires NoDup(nodes) && KahnOrder(nodes, edges, lines, done, rank)
    requires Acyclic(nodes, edges) && TopologicalOrder(nodes, edges, t)
    ensures LexLeast(lines, rank, t)
  {
    KahnIsPermutation(nodes, edges, lines, done, rank);
    forall v | v in nodes ensures v in done {
      LeftoversAreBehindCycles(nodes, edges, lines, done, rank, v);
    }
    OthersAre(nodes, done);
    var others := Others(nodes, done);
    FirstIsIn(others);
    assert rank == done;
    SameLength(rank, t);
    LeastFrom(nodes, edges, lines, rank, t, 0);
  }

  lemma {:induction false} SameLength(s: seq<string>, t: seq<string>)
    requires NoDup(s) && NoDup(t) && forall x :: x in s <==> x in t
    ensures |s| == |t|
  {
    NoDupCard(s);
    NoDupCard(t);
    assert (set x | x in s) == (set x | x in t);
  }

  lemma {:induction false} LeastFrom(
    nodes: seq<string>, edges: Edges, lines: map<string, int>, rank: seq<string>, t: seq<string>, k: nat)
    requires Greedy(nodes, edges, lines, rank) && TopologicalOrder(nodes, edges, t)
    requires |rank| == |t| && k <= |t| && rank[..k] == t[..k]
    ensures LexLeast(lines, rank, t)
    decreases |t| - k
  {
    if k == |t| {
      assert rank[..k] == rank && t[..k] == t;
    } else if rank[k] == t[k] {
      assert rank[..k + 1] == rank[..k] + [rank[k]] && t[..k + 1] == t[..k] + [t[k]];
      LeastFrom(nodes, edges, lines, rank, t, k + 1);
    } else {
      assert Ready(nodes, edges, t[..k], t[k]) by {
        assert t[k] in t;
        forall u | Edge(nodes, edges, u, t[k]) ensures u in t[..k] {
          var i, j :| 0 <= i < j < |t| && t[i] == u && t[j] == t[k];
          assert j == k;
          assert t[..k][i] == u;
        }
        assert t[k] !in t[..k];
      }
      assert KeyLess(lines, rank[k], t[k]);
    }
  }

  // ----- sorting by key -----

  ghost predicate Sorted(lines: map<string, int>, s: seq<string>)
  {
    forall i, j | 0 <= i < j < |s| :: KeyLess(lines, s[i], s[j])
  }

  function Insert(lines: map<string, int>, x: string, s: seq<string>): seq<string>
  {
    if s == [] || KeyLess(lines, x, s[0]) then [x] + s else [s[0]] + Insert(lines, x, s[1..])
  }

  /** What sorting a list of distinct names by key returns. */
  function SortByKey(lines: map<string, int>, s: seq<string>): seq<string>
  {
    if s == [] then [] else Insert(lines, s[0], SortByKey(lines, s[1..]))
  }

  lemma {:induction false} InsertSorts(lines: map<string, int>, x: string, s: seq<string>)
    requires Sorted(lines, s) && x !in s
    ensures Sorted(lines, Insert(lines, x, s))
    ensures forall y :: y in Insert(lines, x, s) <==> y == x || y in s
    decreases s
  {
    if s != [] {
      KeyOrder(lines, x, s[0]);
      if KeyLess(lines, x, s[0]) {
        forall y | y in s ensures KeyLess(lines, x, y) {
          var j :| 0 <= j < |s| && s[j] == y;
          if j > 0 { KeyTransitive(lines, x, s[0], y); }
        }
      } else {
        InsertSorts(lines, x, s[1..]);
        var t := Insert(lines, x, s[1..]);
        forall y | y in t ensures KeyLess(lines, s[0], y) {
          if y != x { var j :| 0 <= j < |s[1..]| && s[1..][j] == y; assert s[j + 1] == y; }
        }
        assert forall y :: y in s <==> y == s[0] || y in s[1..];
      }
    }
  }

  lemma {:induction false} SortSorts(lines: map<string, int>, s: seq<string>)
    requires NoDup(s)
    ensures Sorted(lines, SortByKey(lines, s))
    ensures forall y :: y in SortByKey(lines, s) <==> y in s
    decreases s
  {
    if s != [] {
      SortSorts(lines, s[1..]);
      assert s[0] !in s[1..];
      InsertSorts(lines, s[0], SortByKey(lines, s[1..]));
      assert forall y :: y in s <==> y == s[0] || y in s[1..];
    }
  }

  lemma {:induction false} SortedNoDup(lines: map<string, int>, s: seq<string>)
    requires Sorted(lines, s)
    ensures NoDup(s)
  {
    forall i, j | 0 <= i < j < |s| ensures s[i] != s[j] { KeyOrder(lines, s[i], s[j]); }
  }

  // ----- the algorithm -----

  function Predecessors(nodes: seq<string>, edges: Edges, v: string): set<string>
  {
    set u | u in nodes && Edge(nodes, edges, u, v)
  }

  /** `a` stands in the list before any `b`. */
  ghost predicate Earlier(names: seq<string>, a: string, b: string)
  {
    exists p :: 0 <= p < |names| && names[p] == a && b !in names[..p + 1]
  }

  /** The names stand in the order in which the list first has them. */
  ghost predicate InListOrder(names: seq<string>, s: seq<string>)
  {
    forall i, j | 0 <= i < j < |s| :: Earlier(names, s[i], s[j])
  }

  /** The names listed so far, and in their order. */
  ghost predicate ListedTo(names: seq<string>, i: nat, ordered: seq<string>)
  {
    && i <= |names| && NoDup(ordered) && (forall x :: x in ordered <==> x in names[..i] && x != "")
    && InListOrder(names, ordered)
  }

  lemma {:induction false} OneListed(names: seq<string>, i: nat, ordered: seq<string>)
    requires i < |names| && ListedTo(names, i, ordered)
    ensures names[i] == "" || names[i] in ordered ==> ListedTo(names, i + 1, ordered)
    ensures names[i] != "" && names[i] !in ordered ==> ListedTo(names, i + 1, ordered + [names[i]])
  {
    assert names[..i + 1] == names[..i] + [names[i]];
    if names[i] != "" && names[i] !in ordered {
      var more := ordered + [names[i]];
      forall k | 0 <= k < |ordered| ensures Earlier(names, more[k], names[i]) {
        assert more[k] in ordered;
        var p :| 0 <= p < i && names[..i][p] == more[k];
        assert names[p] == more[k] && names[i] !in names[..i];
        assert forall x :: x in names[..p + 1] ==> x in names[..i];
      }
    }
  }

  /** The names listed, without blanks and repetitions, each at its first place. */
  method Listed(names: seq<string>) returns (ordered: seq<string>)
    ensures NoDup(ordered) && (forall x :: x in ordered <==> x in names && x != "") && InListOrder(names, ordered)
  {
    ordered := [];
    for i := 0 to |names|
      invariant ListedTo(names, i, ordered)
    {
      OneListed(names, i, ordered);
      if names[i] != "" && names[i] !in ordered {
        ordered := ordered + [names[i]];
      }
    }
    assert names[..|names|] == names;
  }

  /** `succ` and `incoming` describe the edges. */
  ghost predicate Describes(
    nodes: seq<string>, edges: Edges, succ: map<string, seq<string>>, incoming: map<string, nat>)
  {
    DescribesSuccessors(nodes, edges, succ) && DescribesCounts(nodes, edges, incoming)
  }

  ghost predicate DescribesSuccessors(nodes: seq<string>, edges: Edges, succ: map<string, seq<string>>)
  {
    && (forall u :: u in succ <==> u in nodes)
    && (forall u | u in nodes :: NoDup(succ[u]) && forall v :: v in succ[u] <==> Edge(nodes, edges, u, v))
  }

  ghost predicate DescribesCounts(nodes: seq<string>, edges: Edges, incoming: map<string, nat>)
  {
    && (forall u :: u in incoming <==> u in nodes)
    && (forall v | v in nodes :: incoming[v] == |Predecessors(nodes, edges, v)|)
  }

  lemma {:induction false} EdgeAdded(nodes: seq<string>, edges: Edges, i: nat)
    requires i < |edges|
    ensures forall u, v :: Edge(nodes, edges[..i + 1], u, v) <==>
              Edge(nodes, edges[..i], u, v) || ((u, v) == edges[i] && u in nodes && v in nodes && u != v)
  {
    assert edges[..i + 1] == edges[..i] + [edges[i]];
  }

  lemma {:induction false} NothingAdded(
    nodes: seq<string>, edges: Edges, i: nat, succ: map<string, seq<string>>, incoming: map<string, nat>)
    requires i < |edges| && Describes(nodes, edges[..i], succ, incoming)
    requires var (src, dst) := edges[i];
             src !in nodes || dst !in nodes || src == dst || Edge(nodes, edges[..i], src, dst)
    ensures Describes(nodes, edges[..i + 1], succ, incoming)
  {
    EdgeAdded(nodes, edges, i);
    forall v ensures Predecessors(nodes, edges[..i + 1], v) == Predecessors(nodes, edges[..i], v) {}
  }

  lemma {:induction false} SuccessorsAdded(nodes: seq<string>, edges: Edges, i: nat, u: string, vs: seq<string>)
    requires i < |edges| && NoDup(vs) && forall v :: v in vs <==> Edge(nodes, edges[..i], u, v)
    requires var (src, dst) := edges[i];
             src in nodes && dst in nodes && src != dst && !Edge(nodes, edges[..i], src, dst)
    ensures var (src, dst) := edges[i]; var vs' := if u == src then vs + [dst] else vs;
            NoDup(vs') && forall v :: v in vs' <==> Edge(nodes, edges[..i + 1], u, v)
  {
    EdgeAdded(nodes, edges, i);
    assert u == edges[i].0 ==> edges[i].1 !in vs;
  }

  lemma {:induction false} PredecessorsAdded(nodes: seq<string>, edges: Edges, i: nat, v: string)
    requires i < |edges|
    requires var (src, dst) := edges[i];
             src in nodes && dst in nodes && src != dst && !Edge(nodes, edges[..i], src, dst)
    ensures |Predecessors(nodes, edges[..i + 1], v)| ==
            |Predecessors(nodes, edges[..i], v)| + (if v == edges[i].1 then 1 else 0)
  {
    EdgeAdded(nodes, edges, i);
    var (src, dst) := edges[i];
    assert Predecessors(nodes, edges[..i + 1], v) ==
        Predecessors(nodes, edges[..i], v) + (if v == dst then {src} else {});
    assert src !in Predecessors(nodes, edges[..i], dst);
  }

  lemma {:induction false} AllSuccessorsAdded(
    nodes: seq<string>, edges: Edges, i: nat, succ: map<string, seq<string>>, src: string, dst: string)
    requires i < |edges| && DescribesSuccessors(nodes, edges[..i], succ) && edges[i] == (src, dst)
    requires src in nodes && dst in nodes && src != dst && !Edge(nodes, edges[..i], src, dst)
    ensures DescribesSuccessors(nodes, edges[..i + 1], succ[src := succ[src] + [dst]])
  {
    forall u | u in nodes
      ensures var vs := succ[src := succ[src] + [dst]][u];
              NoDup(vs) && forall v :: v in vs <==> Edge(nodes, edges[..i + 1], u, v)
    {
      SuccessorsAdded(nodes, edges, i, u, succ[u]);
    }
  }

  lemma {:induction false} OneAdded(
    nodes: seq<string>, edges: Edges, i: nat, succ: map<string, seq<string>>, incoming: map<string, nat>, src: string,
    dst: string)
    requires i < |edges| && Describes(nodes, edges[..i], succ, incoming) && edges[i] == (src, dst)
    requires src in nodes && dst in nodes && src != dst && !Edge(nodes, edges[..i], src, dst)
    ensures Describes(nodes, edges[..i + 1], succ[src := succ[src] + [dst]], incoming[dst := incoming[dst] + 1])
  {
    AllSuccessorsAdded(nodes, edges, i, succ, src, dst);
    AllCountsAdded(nodes, edges, i, incoming, src, dst);
  }

  lemma {:induction false} AllCountsAdded(
    nodes: seq<string>, edges: Edges, i: nat, incoming: map<string, nat>, src: string, dst: string)
    requires i < |edges| && DescribesCounts(nodes, edges[..i], incoming) && edges[i] == (src, dst)
    requires src in nodes && dst in nodes && src != dst && !Edge(nodes, edges[..i], src, dst)
    ensures DescribesCounts(nodes, edges[..i + 1], incoming[dst := incoming[dst] + 1])
  {
    forall v | v in nodes
      ensures incoming[dst := incoming[dst] + 1][v] == |Predecessors(nodes, edges[..i + 1], v)|
    {
      PredecessorsAdded(nodes, edges, i, v);
    }
  }

  lemma {:induction false} NothingRead(nodes: seq<string>, succ: map<string, seq<string>>, incoming: map<string, nat>)
    requires forall u :: u in succ <==> u in nodes
    requires forall u :: u in incoming <==> u in nodes
    requires forall u | u in nodes :: succ[u] == [] && incoming[u] == 0
    ensures Describes(nodes, [], succ, incoming)
  {
    assert forall v | v in nodes :: Predecessors(nodes, [], v) == {};
  }

  method BuildGraph(
    nodes: seq<string>, edges: Edges)
    returns (succ: map<string, seq<string>>, incoming: map<string, nat>)
    ensures Describes(nodes, edges, succ, incoming)
  {
    succ := map u | u in nodes :: [];
    incoming := map u | u in nodes :: 0;
    NothingRead(nodes, succ, incoming);
    for i := 0 to |edges|
      invariant Describes(nodes, edges[..i], succ, incoming)
    {
      var (src, dst) := edges[i];
      if src !in incoming || dst !in incoming || src == dst || dst in succ[src] {
        NothingAdded(nodes, edges, i, succ, incoming);
      } else {
        OneAdded(nodes, edges, i, succ, incoming, src, dst);
        succ := succ[src := succ[src] + [dst]];
        incoming := incoming[dst := incoming[dst] + 1];
      }
    }
    assert edges[..|edges|] == edges;
  }

  /** The predecessors of a name that are not in the order yet. */
  function Pending(nodes: seq<string>, edges: Edges, done: seq<string>, v: string): set<string>
  {
    set u | u in Predecessors(nodes, edges, v) && u !in done
  }

  ghost predicate Counts(nodes: seq<string>, edges: Edges, done: seq<string>, incoming: map<string, nat>)
  {
    && (forall u :: u in incoming <==> u in nodes)
    && forall v | v in nodes :: incoming[v] == |Pending(nodes, edges, done, v)|
  }

  lemma {:induction false} PendingAfter(nodes: seq<string>, edges: Edges, done: seq<string>, cur: string, v: string)
    requires cur !in done
    ensures Edge(nodes, edges, cur, v) ==> cur in Pending(nodes, edges, done, v)
    ensures Pending(nodes, edges, done + [cur], v) == Pending(nodes, edges, done, v) - {cur}
    ensures !Edge(nodes, edges, cur, v) ==> Pending(nodes, edges, done + [cur], v) == Pending(nodes, edges, done, v)
    ensures |Pending(nodes, edges, done + [cur], v)| ==
            |Pending(nodes, edges, done, v)| - (if Edge(nodes, edges, cur, v) then 1 else 0)
  {
    assert forall u :: u in done + [cur] <==> u in done || u == cur;
  }

  lemma {:induction false} ReadyIsNoPending(nodes: seq<string>, edges: Edges, done: seq<string>, v: string)
    ensures Ready(nodes, edges, done, v) <==> v in nodes && v !in done && |Pending(nodes, edges, done, v)| == 0
  {
    if v in nodes && v !in done && !Ready(nodes, edges, done, v) {
      var u :| Edge(nodes, edges, u, v) && u !in done;
      assert u in Pending(nodes, edges, done, v);
    }
  }

  /** Each successor loses one pending predecessor; those with none left are returned. */
  method Release(succs: seq<string>, before: map<string, nat>) returns (incoming: map<string, nat>, next: seq<string>)
    requires NoDup(succs) && forall v | v in succs :: v in before && before[v] > 0
    ensures forall v :: v in incoming <==> v in before
    ensures forall v | v in before :: incoming[v] + (if v in succs then 1 else 0) == before[v]
    ensures NoDup(next) && forall v :: v in next <==> v in succs && before[v] == 1
  {
    incoming, next := before, [];
    for i := 0 to |succs|
      invariant forall v :: v in incoming <==> v in before
      invariant forall v | v in before :: incoming[v] == before[v] - (if v in succs[..i] then 1 else 0)
      invariant NoDup(next)
      invariant forall v :: v in next <==> v in succs[..i] && before[v] == 1
    {
      var nxt := succs[i];
      assert nxt in succs && nxt !in succs[..i];
      assert succs[..i + 1] == succs[..i] + [nxt];
      incoming := incoming[nxt := incoming[nxt] - 1];
      if incoming[nxt] == 0 { next := next + [nxt]; }
    }
    assert succs[..|succs|] == succs;
  }

  lemma {:induction false} SuccessorsArePending(
    nodes: seq<string>, edges: Edges, done: seq<string>, cur: string, succs: seq<string>, before: map<string, nat>)
    requires cur in nodes && cur !in done && Counts(nodes, edges, done, before)
    requires forall v :: v in succs <==> Edge(nodes, edges, cur, v)
    ensures forall v | v in succs :: v in before && before[v] > 0
  {
    forall v | v in succs ensures v in before && before[v] > 0 {
      PendingAfter(nodes, edges, done, cur, v);
    }
  }

  lemma {:induction false} CountsAfter(
    nodes: seq<string>, edges: Edges, done: seq<string>, cur: string, succs: seq<string>, before: map<string, nat>,
    incoming: map<string, nat>)
    requires cur in nodes && cur !in done && Counts(nodes, edges, done, before)
    requires forall v :: v in succs <==> Edge(nodes, edges, cur, v)
    requires forall v :: v in incoming <==> v in before
    requires forall v | v in before :: incoming[v] + (if v in succs then 1 else 0) == before[v]
    ensures Counts(nodes, edges, done + [cur], incoming)
  {
    forall v | v in nodes ensures incoming[v] == |Pending(nodes, edges, done + [cur], v)| {
      PendingAfter(nodes, edges, done, cur, v);
    }
  }

  /** After `cur`, a name is ready iff it was ready before, or `cur` was the last it waited for. */
  lemma {:induction false} ReadyAfter(
    nodes: seq<string>, edges: Edges, lines: map<string, int>, done: seq<string>, cur: string, v: string)
    requires Greedy(nodes, edges, lines, done) && Ready(nodes, edges, done, cur)
    ensures Ready(nodes, edges, done + [cur], v) <==>
            || (Ready(nodes, edges, done, v) && v != cur)
            || (Edge(nodes, edges, cur, v) && |Pending(nodes, edges, done + [cur], v)| == 0)
  {
    ReadyIsNoPending(nodes, edges, done, v);
    ReadyIsNoPending(nodes, edges, done + [cur], v);
    PendingAfter(nodes, edges, done, cur, v);
    if v in done { NoEdgeIntoDone(nodes, edges, lines, done, cur, v); }
  }

  lemma {:induction false} NoEdgeIntoDone(
    nodes: seq<string>, edges: Edges, lines: map<string, int>, done: seq<string>, cur: string, v: string)
    requires Greedy(nodes, edges, lines, done) && cur !in done && v in done
    ensures !Edge(nodes, edges, cur, v)
  {
    var k :| 0 <= k < |done| && done[k] == v;
    assert Ready(nodes, edges, done[..k], done[k]);
    assert cur !in done[..k];
  }

  lemma {:induction false} GreedyExtends(
    nodes: seq<string>, edges: Edges, lines: map<string, int>, done: seq<string>, cur: string)
    requires Greedy(nodes, edges, lines, done) && Ready(nodes, edges, done, cur)
    requires forall v | Ready(nodes, edges, done, v) :: v == cur || KeyLess(lines, cur, v)
    ensures Greedy(nodes, edges, lines, done + [cur])
  {
    var more := done + [cur];
    forall k | 0 <= k < |more|
      ensures Ready(nodes, edges, more[..k], more[k])
      ensures forall v | Ready(nodes, edges, more[..k], v) :: v == more[k] || KeyLess(lines, more[k], v)
    {
      if k < |done| { assert more[..k] == done[..k]; } else { assert more[..k] == done; }
    }
  }

  lemma {:induction false} NotLonger(nodes: seq<string>, edges: Edges, lines: map<string, int>, done: seq<string>)
    requires Greedy(nodes, edges, lines, done)
    ensures |done| <= |nodes|
  {
    GreedyNoDup(nodes, edges, lines, done);
    NoDupCard(done);
    SubsetCard(set x | x in done, set x | x in nodes);
    SetOfSeqCard(nodes);
  }

  method SourcesOf(nodes: seq<string>, incoming: map<string, nat>) returns (sources: seq<string>)
    requires NoDup(nodes) && forall u | u in nodes :: u in incoming
    ensures NoDup(sources) && forall v :: v in sources <==> v in nodes && incoming[v] == 0
  {
    sources := [];
    for i := 0 to |nodes|
      invariant NoDup(sources) && forall v :: v in sources <==> v in nodes[..i] && incoming[v] == 0
    {
      assert nodes[..i + 1] == nodes[..i] + [nodes[i]];
      assert nodes[i] !in nodes[..i];
      if incoming[nodes[i]] == 0 { sources := sources + [nodes[i]]; }
    }
    assert nodes[..|nodes|] == nodes;
  }

  /** The state of the main loop. */
  ghost predicate Working(nodes: seq<string>, edges: Edges, lines: map<string, int>,
                          rank: seq<string>, incoming: map<string, nat>, ready: seq<string>)
  {
    && Greedy(nodes, edges, lines, rank) && Counts(nodes, edges, rank, incoming)
    && Sorted(lines, ready) && forall v :: v in ready <==> Ready(nodes, edges, rank, v)
  }

  method Start(
    nodes: seq<string>, edges: Edges, lines: map<string, int>, incoming: map<string, nat>)
    returns (ready: seq<string>)
    requires NoDup(nodes)
    requires forall u :: u in incoming <==> u in nodes
    requires forall v | v in nodes :: incoming[v] == |Predecessors(nodes, edges, v)|
    ensures Working(nodes, edges, lines, [], incoming, ready)
  {
    forall v ensures Pending(nodes, edges, [], v) == Predecessors(nodes, edges, v) {}
    var sources := SourcesOf(nodes, incoming);
    ready := SortByKey(lines, sources);
    SortSorts(lines, sources);
    forall v ensures v in ready <==> Ready(nodes, edges, [], v) { ReadyIsNoPending(nodes, edges, [], v); }
  }

  /** One turn of the main loop. */
  method Take(nodes: seq<string>, edges: Edges, lines: map<string, int>, succ: map<string, seq<string>>,
              rank: seq<string>, before: map<string, nat>, ready: seq<string>)
    returns (incoming: map<string, nat>, ready': seq<string>)
    requires ready != [] && Working(nodes, edges, lines, rank, before, ready)
    requires forall u :: u in succ <==> u in nodes
    requires forall u | u in nodes :: NoDup(succ[u]) && forall v :: v in succ[u] <==> Edge(nodes, edges, u, v)
    ensures Working(nodes, edges, lines, rank + [ready[0]], incoming, ready')
  {
    var cur := ready[0];
    assert Ready(nodes, edges, rank, cur);
    ready' := LeastReady(nodes, edges, lines, rank, ready);
    GreedyExtends(nodes, edges, lines, rank, cur);
    SuccessorsArePending(nodes, edges, rank, cur, succ[cur], before);
    var next;
    incoming, next := Release(succ[cur], before);
    CountsAfter(nodes, edges, rank, cur, succ[cur], before, incoming);
    forall v ensures Ready(nodes, edges, rank + [cur], v) <==> v in ready' || v in next {
      ReadyAfter(nodes, edges, lines, rank, cur, v);
      PendingAfter(nodes, edges, rank, cur, v);
    }
    NextIsNew(nodes, edges, rank, cur, ready', next);
    if next != [] {
      SortedNoDup(lines, ready');
      NoDupJoin(ready', next);
      SortSorts(lines, ready' + next);
      ready' := SortByKey(lines, ready' + next);
    }
  }

  method AppendOthers(nodes: seq<string>, done: seq<string>) returns (rank: seq<string>)
    requires NoDup(nodes)
    ensures rank == done + Others(nodes, done)
  {
    rank := done;
    for i := 0 to |nodes|
      invariant done + Others(nodes, done) == rank + Others(nodes[i..], done)
      invariant forall x :: x in rank <==> x in done || x in nodes[..i]
    {
      assert nodes[i..][0] == nodes[i] && nodes[i..][1..] == nodes[i + 1..];
      assert nodes[..i + 1] == nodes[..i] + [nodes[i]];
      assert nodes[i] !in nodes[..i];
      assert rank + ([nodes[i]] + Others(nodes[i + 1..], done)) == rank + [nodes[i]] + Others(nodes[i + 1..], done);
      if nodes[i] !in rank { rank := rank + [nodes[i]]; }
    }
  }

  method Kahn(nodes: seq<string>, edges: Edges, lines: map<string, int>) returns (rank: seq<string>)
    requires NoDup(nodes)
    ensures exists done :: KahnOrder(nodes, edges, lines, done, rank)
  {
    var succ, incoming := BuildGraph(nodes, edges);
    rank := [];
    var ready := Start(nodes, edges, lines, incoming);
    while ready != []
      invariant Working(nodes, edges, lines, rank, incoming, ready)
      decreases |nodes| - |rank|
    {
      var cur := ready[0];
      incoming, ready := Take(nodes, edges, lines, succ, rank, incoming, ready);
      rank := rank + [cur];
      NotLonger(nodes, edges, lines, rank);
    }
    forall x ensures !Ready(nodes, edges, rank, x) { assert x !in ready; }
    ghost var done := rank;
    rank := AppendOthers(nodes, rank);
    assert KahnOrder(nodes, edges, lines, done, rank);
  }

  /** The least ready name is taken off the front. */
  method LeastReady(
    nodes: seq<string>, edges: Edges, lines: map<string, int>, ghost done: seq<string>, ready: seq<string>)
    returns (rest: seq<string>)
    requires ready != [] && Sorted(lines, ready) && forall v :: v in ready <==> Ready(nodes, edges, done, v)
    ensures rest == ready[1..] && Sorted(lines, rest)
    ensures forall v | Ready(nodes, edges, done, v) :: v == ready[0] || KeyLess(lines, ready[0], v)
    ensures forall v :: v in rest <==> Ready(nodes, edges, done, v) && v != ready[0]
  {
    rest := ready[1..];
    SortedNoDup(lines, ready);
    forall v | Ready(nodes, edges, done, v) ensures v == ready[0] || KeyLess(lines, ready[0], v) {
      assert v in ready;
    }
    forall v ensures v in rest <==> Ready(nodes, edges, done, v) && v != ready[0] {
      if v in ready && v != ready[0] {
        var j :| 0 <= j < |ready| && ready[j] == v;
        assert rest[j - 1] == v;
      }
    }
  }

  lemma {:induction false} NextIsNew(
    nodes: seq<string>, edges: Edges, done: seq<string>, cur: string, ready: seq<string>, next: seq<string>)
    requires cur !in done
    requires forall v | v in ready :: Ready(nodes, edges, done, v)
    requires forall v | v in next :: Edge(nodes, edges, cur, v)
    ensures forall v | v in ready :: v !in next
  {
    forall v | v in ready ensures v !in next {
      assert v in next ==> Edge(nodes, edges, cur, v);
      assert Ready(nodes, edges, done, v);
    }
  }

  // ----- the order with cycles -----

  lemma {:induction false} OthersInOrder(names: seq<string>, nodes: seq<string>, done: seq<string>)
    requires NoDup(nodes) && InListOrder(names, nodes)
    ensures InListOrder(names, Others(nodes, done))
    decreases nodes
  {
    if nodes != [] {
      var tail := nodes[1..];
      assert forall i | 0 <= i < |tail| :: tail[i] == nodes[i + 1];
      OthersInOrder(names, tail, done);
      OthersAre(tail, done);
      var rest := Others(tail, done);
      forall k | 0 <= k < |rest| ensures Earlier(names, nodes[0], rest[k]) {
        assert rest[k] in rest;
        var j :| 0 <= j < |tail| && tail[j] == rest[k];
        assert Earlier(names, nodes[0], nodes[j + 1]);
      }
    }
  }

  /** Taken by themselves, the names that became ready are all there are. */
  lemma {:induction false} DoneAlone(nodes: seq<string>, edges: Edges, lines: map<string, int>, done: seq<string>)
    requires Greedy(nodes, edges, lines, done)
    ensures KahnOrder(done, edges, lines, done, done)
  {
    GreedyNoDup(nodes, edges, lines, done);
    forall k | 0 <= k < |done|
      ensures Ready(done, edges, done[..k], done[k])
      ensures forall v | Ready(done, edges, done[..k], v) :: v == done[k] || KeyLess(lines, done[k], v)
    {
      ReadyAlone(nodes, edges, lines, done, k);
    }
    OthersOfAll(done, done);
    assert forall x :: !Ready(done, edges, done, x);
  }

  lemma {:induction false} ReadyAlone(
    nodes: seq<string>, edges: Edges, lines: map<string, int>, done: seq<string>, k: nat)
    requires Greedy(nodes, edges, lines, done) && k < |done| && NoDup(done) && forall x | x in done :: x in nodes
    ensures forall v | v in done :: Ready(done, edges, done[..k], v) <==> Ready(nodes, edges, done[..k], v)
  {
    forall v | v in done && Ready(done, edges, done[..k], v) ensures Ready(nodes, edges, done[..k], v) {
      var i :| 0 <= i < |done| && done[i] == v;
      forall u | Edge(nodes, edges, u, v) ensures u in done[..k] {
        var j := GreedyPredecessor(nodes, edges, lines, done, u, i);
        assert Edge(done, edges, u, v);
      }
    }
  }

  lemma {:induction false} OthersOfAll(nodes: seq<string>, done: seq<string>)
    requires forall x | x in nodes :: x in done
    ensures Others(nodes, done) == []
    decreases nodes
  {
    if nodes != [] {
      assert nodes[0] in nodes;
      OthersOfAll(nodes[1..], done);
    }
  }

  lemma {:induction false} DoneIsAcyclic(
    nodes: seq<string>, edges: Edges, lines: map<string, int>, done: seq<string>)
    requires Greedy(nodes, edges, lines, done)
    ensures Acyclic(done, edges)
  {
    DoneAlone(nodes, edges, lines, done);
    forall v | v in done ensures !BehindCycle(done, edges, v) { DoneIsNotBehindCycle(done, edges, lines, done, v); }
  }

  /** The first `m` names of the rank are those no cycle leads to, in their least topological order; behind them come
      the others, in the order of the list. */
  ghost predicate RankedUpTo(
    names: seq<string>, edges: Edges, lines: map<string, int>, rank: seq<string>, m: nat)
  {
    && m <= |rank|
    && (forall k | 0 <= k < |rank| :: k >= m <==> BehindCycle(rank, edges, rank[k]))
    && TopologicalOrder(rank[..m], edges, rank[..m])
    && (forall t | TopologicalOrder(rank[..m], edges, t) :: LexLeast(lines, rank[..m], t))
    && InListOrder(names, rank[m..])
  }

  lemma {:induction false} RankIsOrdered(
    names: seq<string>, nodes: seq<string>, edges: Edges, lines: map<string, int>, done: seq<string>,
    rank: seq<string>)
    requires NoDup(nodes) && InListOrder(names, nodes) && KahnOrder(nodes, edges, lines, done, rank)
    ensures RankedUpTo(names, edges, lines, rank, |done|)
  {
    var m := |done|;
    assert rank[..m] == done && rank[m..] == Others(nodes, done);
    OthersInOrder(names, nodes, done);
    KahnIsPermutation(nodes, edges, lines, done, rank);
    OthersAre(nodes, done);
    forall k | 0 <= k < |rank| ensures k >= m <==> BehindCycle(rank, edges, rank[k]) {
      assert rank[k] in rank;
      if k >= m { assert rank[k] == rank[m..][k - m]; } else { assert rank[k] == done[k]; }
      LeftoversAreBehindCycles(nodes, edges, lines, done, rank, rank[k]);
      SameCycles(nodes, rank, edges, rank[k]);
    }
    DoneAlone(nodes, edges, lines, done);
    DoneIsAcyclic(nodes, edges, lines, done);
    GreedyNoDup(nodes, edges, lines, done);
    KahnIsPermutation(done, edges, lines, done, done);
    AcyclicRank(done, edges, lines, done, done);
  }

  /** Ordinals 1..n: sources first, then what they lead to; the rest in the given order. */
  method TopoPipeOrdinals(names: seq<string>, edges: Edges, lines: map<string, int>)
    returns (ordinals: map<string, nat>, rank: seq<string>)
    // the ordinals number the order from 1 to n, and every listed name has one
    ensures NoDup(rank) && forall x :: x in rank <==> x in names && x != ""
    ensures forall x :: x in ordinals <==> x in rank
    ensures forall k | 0 <= k < |rank| :: ordinals[rank[k]] == k + 1
    // every edge into a name that no cycle leads to is respected
    ensures forall u, v | Edge(rank, edges, u, v) && !BehindCycle(rank, edges, v) :: ordinals[u] < ordinals[v]
    // those no cycle leads to come first, and no topological order of them comes before theirs; the others follow as
    // they are listed
    ensures exists m :: RankedUpTo(names, edges, lines, rank, m)
    // and so without cycles no topological order comes before this one
    ensures Acyclic(rank, edges) ==> TopologicalOrder(rank, edges, rank)
    ensures Acyclic(rank, edges) ==> forall t | TopologicalOrder(rank, edges, t) :: LexLeast(lines, rank, t)
  {
    var ordered := Listed(names);
    rank := Kahn(ordered, edges, lines);
    ghost var done :| KahnOrder(ordered, edges, lines, done, rank);
    KahnIsPermutation(ordered, edges, lines, done, rank);
    RankIsOrdered(names, ordered, edges, lines, done, rank);
    ordinals := Numbered(rank);
    OrdinalsRespect(ordered, edges, lines, done, rank, ordinals);
    if Acyclic(rank, edges) { AcyclicRank(ordered, edges, lines, done, rank); }
  }

  /** The places from 1 on. */
  method Numbered(rank: seq<string>) returns (ordinals: map<string, nat>)
    requires NoDup(rank)
    ensures forall x :: x in ordinals <==> x in rank
    ensures forall k | 0 <= k < |rank| :: ordinals[rank[k]] == k + 1
  {
    ordinals := map[];
    for k := 0 to |rank|
      invariant forall x :: x in ordinals <==> x in rank[..k]
      invariant forall j | 0 <= j < k :: ordinals[rank[j]] == j + 1
    {
      assert rank[..k + 1] == rank[..k] + [rank[k]];
      ordinals := ordinals[rank[k] := k + 1];
    }
    assert rank[..|rank|] == rank;
  }

  lemma {:induction false} OrdinalsRespect(
    nodes: seq<string>, edges: Edges, lines: map<string, int>, done: seq<string>, rank: seq<string>,
    ordinals: map<string, nat>)
    requires NoDup(nodes) && KahnOrder(nodes, edges, lines, done, rank) && SameNames(rank, nodes)
    requires (forall x :: x in ordinals <==> x in rank) && forall k | 0 <= k < |rank| :: ordinals[rank[k]] == k + 1
    ensures forall u, v | Edge(rank, edges, u, v) && !BehindCycle(rank, edges, v) :: ordinals[u] < ordinals[v]
  {
    forall u, v | Edge(rank, edges, u, v) && !BehindCycle(rank, edges, v) ensures ordinals[u] < ordinals[v] {
      RankRespects(nodes, edges, lines, done, rank, u, v);
      var i, j :| 0 <= i < j < |rank| && rank[i] == u && rank[j] == v;
    }
  }

  lemma {:induction false} RankRespects(
    nodes: seq<string>, edges: Edges, lines: map<string, int>, done: seq<string>, rank: seq<string>, u: string,
    v: string)
    requires NoDup(nodes) && KahnOrder(nodes, edges, lines, done, rank) && SameNames(rank, nodes)
    requires Edge(rank, edges, u, v) && !BehindCycle(rank, edges, v)
    ensures Before(rank, u, v)
  {
    SameGraph(nodes, rank, edges);
    SameCycles(nodes, rank, edges, v);
    KahnRespectsEdges(nodes, edges, lines, done, rank, u, v);
  }

  lemma {:induction false} AcyclicRank(
    nodes: seq<string>, edges: Edges, lines: map<string, int>, done: seq<string>, rank: seq<string>)
    requires NoDup(nodes) && KahnOrder(nodes, edges, lines, done, rank) && SameNames(rank, nodes)
    requires Acyclic(rank, edges)
    ensures TopologicalOrder(rank, edges, rank)
    ensures forall t | TopologicalOrder(rank, edges, t) :: LexLeast(lines, rank, t)
  {
    SameGraph(nodes, rank, edges);
    forall u, v | Edge(rank, edges, u, v) ensures Before(rank, u, v) {
      RankRespects(nodes, edges, lines, done, rank, u, v);
    }
    forall v | v in nodes ensures !BehindCycle(nodes, edges, v) {
      assert v in rank;
      SameCycles(nodes, rank, edges, v);
    }
    forall t | TopologicalOrder(rank, edges, t) ensures LexLeast(lines, rank, t) {
      assert TopologicalOrder(nodes, edges, t);
      KahnIsLeast(nodes, edges, lines, done, rank, t);
    }
  }

  /** Edges and cycles depend on which names are listed, not on their order. */
  lemma {:induction false} SameGraph(nodes: seq<string>, nodes': seq<string>, edges: Edges)
    requires forall x :: x in nodes <==> x in nodes'
    ensures forall u, v :: Edge(nodes, edges, u, v) <==> Edge(nodes', edges, u, v)
  {
  }

  lemma {:induction false} SameCycles(nodes: seq<string>, nodes': seq<string>, edges: Edges, v: string)
    requires forall x :: x in nodes <==> x in nodes'
    ensures BehindCycle(nodes, edges, v) <==> BehindCycle(nodes', edges, v)
  {
    SameGraph(nodes, nodes', edges);
    if BehindCycle(nodes, edges, v) {
      var w :| Walk(nodes, edges, w) && w[|w| - 1] == v && Loops(w);
      assert Walk(nodes', edges, w);
    }
    if BehindCycle(nodes', edges, v) {
      var w :| Walk(nodes', edges, w) && w[|w| - 1] == v && Loops(w);
      assert Walk(nodes, edges, w);
    }
  }
}
