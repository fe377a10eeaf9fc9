/** Which look-ups can be ranked: exactly those that lead into no cycle of callers. */
module ParamRanks {
  import opened Sequences
  import opened ParamBindings

  /** Some chain of look-ups from here comes to a triple twice. */
  ghost predicate LeadsToCycle(p: Program, k: Key)
  {
    exists ks :: Chain(p, ks) && ks[0] == k && EndsInCycle(ks)
  }

  ghost predicate EndsInCycle(ks: seq<Key>)
  {
    exists i :: 0 <= i < |ks| - 1 && ks[i] == ks[|ks| - 1]
  }

  /** Along a chain from a ranked triple the ranks descend. */
  lemma {:induction false} RanksDescend(p: Program, rank: map<Key, nat>, ks: seq<Key>, i: nat, j: nat)
    requires Ranked(p, rank) && Chain(p, ks) && ks[0] in rank && i <= j < |ks|
    ensures ks[i] in rank && ks[j] in rank && (i < j ==> rank[ks[j]] < rank[ks[i]])
    decreases j
  {
    if j > 0 {
      assert ks[j] in Next(p, ks[j - 1]);
      RanksDescend(p, rank, ks, if i < j then i else i - 1, j - 1);
    }
  }

  lemma {:induction false} RankedLeadsToNoCycle(p: Program, rank: map<Key, nat>, k: Key)
    requires Ranked(p, rank) && k in rank
    ensures !LeadsToCycle(p, k)
  {
    forall ks | Chain(p, ks) && ks[0] == k ensures !EndsInCycle(ks) {
      forall i | 0 <= i < |ks| - 1 ensures ks[i] != ks[|ks| - 1] {
        RanksDescend(p, rank, ks, i, |ks| - 1);
      }
    }
  }

  ghost predicate Onward(p: Program, rest: set<Key>, k: Key)
  {
    exists next :: next in Next(p, k) && next in rest
  }

  /** Every triple of the set leads to one of the set. */
  ghost predicate Stuck(p: Program, rest: set<Key>)
  {
    forall k {:trigger Onward(p, rest, k)} | k in rest :: Onward(p, rest, k)
  }

  /** From such a set one can go on for ever. */
  lemma {:induction false} GoesOn(p: Program, rest: set<Key>, k: Key, n: nat) returns (ks: seq<Key>)
    requires k in rest && Stuck(p, rest)
    ensures Chain(p, ks) && ks[0] == k && |ks| == n + 1 && forall m | m in ks :: m in rest
    decreases n
  {
    if n == 0 {
      ks := [k];
    } else {
      assert Onward(p, rest, k);
      var next :| next in Next(p, k) && next in rest;
      var behind := GoesOn(p, rest, next, n - 1);
      ChainStep(p, k, behind);
      ks := [k] + behind;
    }
  }

  lemma {:induction false} StuckIsCyclic(p: Program, rest: set<Key>, k: Key)
    requires k in rest && Stuck(p, rest)
    ensures LeadsToCycle(p, k)
  {
    var ks := GoesOn(p, rest, k, |rest|);
    var i, j := Pigeonhole(rest, ks);
    var c := ks[..j + 1];
    assert c[i] == c[|c| - 1];
    assert Chain(p, c) && c[0] == k && EndsInCycle(c);
  }

  /** The triples that lead into no cycle. */
  ghost function Acyclic(p: Program, universe: set<Key>): set<Key>
  {
    set k | k in universe && !LeadsToCycle(p, k)
  }

  lemma {:induction false} AcyclicClosed(p: Program, universe: set<Key>, k: Key, next: Key)
    requires Closed(p, universe) && k in Acyclic(p, universe) && next in Next(p, k)
    ensures next in Acyclic(p, universe)
  {
    forall ks | Chain(p, ks) && ks[0] == next ensures !EndsInCycle(ks) {
      ChainStep(p, k, ks);
      CycleBehindFirst(k, ks);
    }
  }

  lemma {:induction false} CycleBehindFirst(k: Key, ks: seq<Key>)
    ensures EndsInCycle(ks) ==> EndsInCycle([k] + ks)
  {
    var more := [k] + ks;
    if i :| 0 <= i < |ks| - 1 && ks[i] == ks[|ks| - 1] {
      assert more[i + 1] == ks[i] && more[|more| - 1] == ks[|ks| - 1];
    }
  }

  /** Ranks one triple after the other, each above all it leads to. */
  lemma {:induction false} RankTheRest(p: Program, universe: set<Key>, rank: map<Key, nat>, top: nat)
    returns (all: map<Key, nat>)
    requires Closed(p, universe) && Ranked(p, rank) && rank.Keys <= Acyclic(p, universe)
    requires forall k | k in rank :: rank[k] < top
    ensures Ranked(p, all) && all.Keys == Acyclic(p, universe)
    decreases Acyclic(p, universe) - rank.Keys
  {
    var rest := Acyclic(p, universe) - rank.Keys;
    if rest == {} {
      assert rank.Keys == Acyclic(p, universe);
      all := rank;
    } else {
      var k := NextToRank(p, universe, rank);
      assert k in rest && rank[k := top].Keys == rank.Keys + {k};
      all := RankTheRest(p, universe, rank[k := top], top + 1);
    }
  }

  lemma {:induction false} NextToRank(p: Program, universe: set<Key>, rank: map<Key, nat>) returns (k: Key)
    requires Closed(p, universe) && Acyclic(p, universe) - rank.Keys != {}
    ensures k in Acyclic(p, universe) && k !in rank && forall next | next in Next(p, k) :: next in rank
  {
    var rest := Acyclic(p, universe) - rank.Keys;
    if Stuck(p, rest) {
      k :| k in rest;
      StuckIsCyclic(p, rest, k);
      assert false;
    } else {
      k :| k in rest && !Onward(p, rest, k);
      forall next | next in Next(p, k) ensures next in rank { AcyclicClosed(p, universe, k, next); }
    }
  }

  /** One ranking serves all triples that lead into no cycle, and no ranking serves another one. */
  lemma {:induction false} RankedIffAcyclic(p: Program, universe: set<Key>) returns (rank: map<Key, nat>)
    requires Closed(p, universe)
    ensures Ranked(p, rank) && forall k | k in universe :: k in rank <==> !LeadsToCycle(p, k)
    ensures forall r: map<Key, nat>, k | Ranked(p, r) && k in r && k in universe :: k in rank
  {
    rank := RankTheRest(p, universe, map[], 0);
    forall r: map<Key, nat>, k | Ranked(p, r) && k in r && k in universe ensures k in rank {
      RankedLeadsToNoCycle(p, r, k);
    }
  }
}
