/** The include graph of the confirmed files: what a quoted include stands for. */
module QuotedIncludes {
  import opened Wrappers
  import opened Sequences

  /** A file as it lies on disk; `sha` stands for its bytes. */
  datatype File = File(mtime: int, size: int, sha: string)

  type Graph = map<string, seq<string>>

  predicate Includes(graph: Graph, a: string, b: string)
  {
    a in graph && b in graph[a]
  }

  // ----- quoted includes -----

  /** What is left open: joining and naming paths as the platform does, and the quoted includes in a file's bytes. */
  datatype Reading = Reading(
    /** A path next to a file. */
    beside: (string, string) -> string,
    /** The last part of a path, in lower case. */
    name: string -> string,
    quoted: string -> seq<string>)

  function Slashed(s: string): string
  {
    seq(|s|, i requires 0 <= i < |s| => if s[i] == '\\' then '/' else s[i])
  }

  predicate EndsWith(s: string, t: string) { |t| <= |s| && s[|s| - |t|..] == t }

  /** A confirmed path that may stand for an include that is found nowhere else. */
  predicate Matches(t: Reading, needle: string, rel: string)
  {
    EndsWith(rel, "/" + needle) || t.name(rel) == t.name(needle)
  }

  predicate IsLeast(s: set<string>, x: string)
  {
    x in s && forall y | y in s :: y == x || NameLess(x, y)
  }

  lemma {:induction false} LeastExists(s: set<string>)
    requires s != {}
    ensures exists x :: IsLeast(s, x)
    decreases s
  {
    var x :| x in s;
    if s == {x} {
      assert IsLeast(s, x);
    } else {
      LeastExists(s - {x});
      var y :| IsLeast(s - {x}, y);
      LeastOfTwo(s, x, y);
    }
  }

  lemma {:induction false} LeastOfTwo(s: set<string>, x: string, y: string)
    requires x in s && IsLeast(s - {x}, y)
    ensures if NameLess(x, y) then IsLeast(s, x) else IsLeast(s, y)
  {
    NameOrder(x, y);
    forall z | z in s && NameLess(x, y) ensures z == x || NameLess(x, z) {
      if z != x && z != y { NameTransitive(x, y, z); }
    }
  }

  lemma {:induction false} LeastIsUnique(s: set<string>, x: string, y: string)
    requires IsLeast(s, x) && IsLeast(s, y)
    ensures x == y
  {
    NameOrder(x, y);
  }

  ghost function Least(s: set<string>): (r: Option<string>)
    ensures r.None? <==> s == {}
    ensures r.Some? ==> IsLeast(s, r.value)
  {
    if s == {} then None
    else
      LeastExists(s);
      var x :| IsLeast(s, x);
      Some(x)
  }

  function Candidates(t: Reading, needle: string, rels: set<string>): set<string>
  {
    set r | r in rels && Matches(t, needle, r)
  }

  /** The confirmed path a quoted include stands for: next to the file, as given, or the first that may be meant. */
  ghost function Resolve(t: Reading, inc: string, from: string, rels: set<string>): (r: Option<string>)
    ensures r.Some? ==> r.value in rels
  {
    var needle := Slashed(inc);
    if needle == "" then None
    else if t.beside(from, needle) in rels then Some(t.beside(from, needle))
    else if needle in rels then Some(needle)
    else Least(Candidates(t, needle, rels))
  }

  method ResolveQuotedInclude(t: Reading, inc: string, from: string, rels: set<string>) returns (r: Option<string>)
    ensures r == Resolve(t, inc, from, rels)
  {
    var needle := Slashed(inc);
    if needle == "" { return None; }
    var parent := t.beside(from, needle);
    if parent in rels { return Some(parent); }
    if needle in rels { return Some(needle); }
    r := None;
    var todo := rels;
    while todo != {}
      invariant todo <= rels
      invariant r.None? <==> Candidates(t, needle, rels - todo) == {}
      invariant r.Some? ==> IsLeast(Candidates(t, needle, rels - todo), r.value)
    {
      var rel :| rel in todo;
      ghost var seen := Candidates(t, needle, rels - todo);
      CandidatesWith(t, needle, rels, todo, rel);
      if Matches(t, needle, rel) {
        if r.Some? { LeastOfTwo(seen + {rel}, rel, r.value); }
        if r.None? || NameLess(rel, r.value) { r := Some(rel); }
      }
      todo := todo - {rel};
    }
    assert rels - todo == rels;
    if r.Some? { LeastIsUnique(Candidates(t, needle, rels), r.value, Least(Candidates(t, needle, rels)).value); }
  }

  lemma {:induction false} CandidatesWith(t: Reading, needle: string, rels: set<string>, todo: set<string>, rel: string)
    requires rel in todo && todo <= rels
    ensures var seen := Candidates(t, needle, rels - todo);
            && rel !in seen && seen + {rel} - {rel} == seen
            && Candidates(t, needle, rels - (todo - {rel})) == if Matches(t, needle, rel) then seen + {rel} else seen
  {
  }

  /** An include that still has its old target among the confirmed paths keeps it, or finds a path not there before. */
  lemma {:induction false} ResolveKeeps(t: Reading, inc: string, from: string, rels: set<string>, rels': set<string>)
    requires Resolve(t, inc, from, rels).Some? && Resolve(t, inc, from, rels).value in rels'
    ensures var r, r' := Resolve(t, inc, from, rels), Resolve(t, inc, from, rels');
            r' == r || (r'.Some? && r'.value !in rels)
  {
    var needle := Slashed(inc);
    var matches, matches' := Candidates(t, needle, rels), Candidates(t, needle, rels');
    var r, r' := Resolve(t, inc, from, rels), Resolve(t, inc, from, rels');
    if t.beside(from, needle) !in rels + rels' && needle !in rels + rels' {
      assert r.value in matches';
      if r'.value in rels {
        assert r'.value in matches;
        NameOrder(r.value, r'.value);
      }
    }
  }

  // ----- the preference, path by path -----

  /** The text of an include with its backslashes turned. */
  ghost predicate Turned(inc: string, needle: string)
  {
    |needle| == |inc| && forall i | 0 <= i < |inc| :: needle[i] == if inc[i] == '\\' then '/' else inc[i]
  }

  /** The path next to the file; the path as given; one that ends in it, or is named like it. */
  ghost predicate Beside(t: Reading, needle: string, from: string, x: string) { x == t.beside(from, needle) }

  ghost predicate MayStand(t: Reading, needle: string, from: string, x: string)
  {
    || Beside(t, needle, from, x) || x == needle || t.name(x) == t.name(needle)
    || exists front: string :: x == front + "/" + needle
  }

  /** `x` comes before `y`. */
  ghost predicate Preferred(t: Reading, needle: string, from: string, x: string, y: string)
  {
    || Beside(t, needle, from, x)
    || (!Beside(t, needle, from, y) && (x == needle || (y != needle && NameLess(x, y))))
  }

  lemma {:induction false} EndsWithIff(s: string, t: string)
    ensures EndsWith(s, t) <==> exists front: string :: s == front + t
  {
    if EndsWith(s, t) { assert s == s[..|s| - |t|] + t; }
    if front: string :| s == front + t { assert |front| == |s| - |t|; }
  }

  lemma {:induction false} MayStandIff(t: Reading, needle: string, from: string, x: string)
    ensures MayStand(t, needle, from, x) <==> x == t.beside(from, needle) || x == needle || Matches(t, needle, x)
  {
    EndsWithIff(x, "/" + needle);
    if front: string :| x == front + "/" + needle { Regroup(front, "/", needle); }
    if front: string :| x == front + ("/" + needle) { Regroup(front, "/", needle); }
  }

  ghost predicate Best(t: Reading, needle: string, from: string, rels: set<string>, x: string)
  {
    && x in rels && MayStand(t, needle, from, x)
    && forall y | y in rels && MayStand(t, needle, from, y) :: y == x || Preferred(t, needle, from, x, y)
  }

  lemma {:induction false} BestIsUnique(
    t: Reading, needle: string, from: string, rels: set<string>, x: string, y: string)
    requires Best(t, needle, from, rels, x) && Best(t, needle, from, rels, y)
    ensures x == y
  {
    NameOrder(x, y);
  }

  lemma {:induction false} ResolvedIsBest(t: Reading, inc: string, from: string, rels: set<string>)
    requires Slashed(inc) != ""
    ensures var r := Resolve(t, inc, from, rels);
            if r.Some? then Best(t, Slashed(inc), from, rels, r.value)
            else forall y | y in rels :: !MayStand(t, Slashed(inc), from, y)
  {
    var needle := Slashed(inc);
    forall y ensures MayStand(t, needle, from, y) <==>
                     y == t.beside(from, needle) || y == needle || Matches(t, needle, y) {
      MayStandIff(t, needle, from, y);
    }
    var matches := Candidates(t, needle, rels);
    assert forall y | y in rels && Matches(t, needle, y) :: y in matches;
  }

  /** An include stands for a confirmed path exactly when that path may stand for it and comes before every other
      confirmed one that may: next to the file before as given, that before the rest, and the rest by name. */
  lemma {:induction false} ResolveIff(
    t: Reading, inc: string, from: string, rels: set<string>, needle: string, x: string)
    requires Turned(inc, needle)
    ensures Resolve(t, inc, from, rels) == Some(x) <==> needle != "" && Best(t, needle, from, rels, x)
    ensures Resolve(t, inc, from, rels) == None <==> needle == "" || forall y | y in rels ::
            !MayStand(t, needle, from, y)
  {
    assert needle == Slashed(inc);
    if needle != "" {
      ResolvedIsBest(t, inc, from, rels);
      var r := Resolve(t, inc, from, rels);
      if r.Some? && Best(t, needle, from, rels, x) { BestIsUnique(t, needle, from, rels, x, r.value); }
    }
  }

  // ----- the include graph of the confirmed files -----

  function Rels(confirmed: seq<string>): set<string> { set p | p in confirmed && p != "" }

  function QuotedIn(t: Reading, disk: map<string, File>, path: string): seq<string>
  {
    if path in disk then t.quoted(disk[path].sha) else []
  }

  /** The targets of the includes of a file, each at its first place. */
  ghost function Targets(t: Reading, incs: seq<string>, from: string, rels: set<string>): seq<string>
  {
    if incs == [] then []
    else
      var front, r := Targets(t, incs[..|incs| - 1], from, rels), Resolve(t, incs[|incs| - 1], from, rels);
      if r.Some? && r.value !in front then front + [r.value] else front
  }

  lemma {:induction false} TargetsAre(t: Reading, incs: seq<string>, from: string, rels: set<string>)
    ensures forall x :: x in Targets(t, incs, from, rels) <==>
              exists inc :: inc in incs && Resolve(t, inc, from, rels) == Some(x)
    decreases incs
  {
    if incs != [] {
      var front, last := incs[..|incs| - 1], incs[|incs| - 1];
      TargetsAre(t, front, from, rels);
      assert incs == front + [last];
      forall x ensures x in Targets(t, incs, from, rels) <==>
                       exists inc :: inc in incs && Resolve(t, inc, from, rels) == Some(x)
      {
        if inc :| inc in front && Resolve(t, inc, from, rels) == Some(x) { assert inc in incs; }
        assert last in incs;
      }
    }
  }

  ghost function GraphOf(t: Reading, confirmed: seq<string>, disk: map<string, File>): Graph
  {
    map p | p in Rels(confirmed) :: Targets(t, QuotedIn(t, disk, p), p, Rels(confirmed))
  }

  method IncludesOf(t: Reading, incs: seq<string>, from: string, rels: set<string>) returns (found: seq<string>)
    ensures found == Targets(t, incs, from, rels)
  {
    found := [];
    for i := 0 to |incs|
      invariant found == Targets(t, incs[..i], from, rels)
    {
      assert incs[..i + 1][..i] == incs[..i];
      var r := ResolveQuotedInclude(t, incs[i], from, rels);
      if r.Some? && r.value !in found { found := found + [r.value]; }
    }
    assert incs[..|incs|] == incs;
  }

  method CollectIncludeGraph(t: Reading, confirmed: seq<string>, disk: map<string, File>) returns (graph: Graph)
    ensures graph == GraphOf(t, confirmed, disk)
  {
    var rels := set p | p in confirmed && p != "";
    graph := map[];
    var todo := rels;
    while todo != {}
      invariant todo <= rels && graph.Keys == rels - todo
      invariant forall p | p in graph :: graph[p] == Targets(t, QuotedIn(t, disk, p), p, rels)
    {
      var p :| p in todo;
      var found := IncludesOf(t, QuotedIn(t, disk, p), p, rels);
      graph := graph[p := found];
      todo := todo - {p};
    }
  }

  /** A file includes another exactly when one of its quoted includes stands for it. */
  lemma {:induction false} IncludesIff(
    t: Reading, confirmed: seq<string>, disk: map<string, File>, a: string, b: string)
    ensures Includes(GraphOf(t, confirmed, disk), a, b) <==>
              && a in Rels(confirmed)
              && exists inc :: inc in QuotedIn(t, disk, a) && Resolve(t, inc, a, Rels(confirmed)) == Some(b)
  {
    TargetsAre(t, QuotedIn(t, disk, a), a, Rels(confirmed));
  }
}
