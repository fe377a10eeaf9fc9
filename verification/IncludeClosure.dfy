/** Which confirmed sources an incremental extraction may keep: stamps, and the reverse include closure. */
module IncludeClosure {
  import opened Wrappers
  import opened Sequences
  import opened QuotedIncludes

  // ----- stamps -----

  datatype Row = Row(path: string, mtime: int, size: int, sha: string)

  const MISSING := "missing"

  /** A stored number, where nothing and zero both read as -1. */
  function Stored(n: int): int { if n == 0 then -1 else n }

  /** The recorded sha may be reused without reading the file. */
  predicate Reusable(f: File, prior: Row)
  {
    prior.sha != "" && prior.sha != MISSING && Stored(prior.mtime) == f.mtime && Stored(prior.size) == f.size
  }

  function Stamp(path: string, disk: map<string, File>, prev: map<string, Row>): Row
  {
    if path !in disk then Row(path, 0, 0, MISSING)
    else
      var f := disk[path];
      if path in prev && Reusable(f, prev[path]) then Row(path, f.mtime, f.size, prev[path].sha)
      else Row(path, f.mtime, f.size, f.sha)
  }

  /** One row per path, reusing what the previous stamps know. */
  method CollectSourceStamps(
    disk: map<string, File>, paths: seq<string>, prev: map<string, Row>)
    returns (rows: map<string, Row>)
    ensures forall p :: p in rows <==> p in paths
    ensures forall p | p in rows :: rows[p] == Stamp(p, disk, prev)
  {
    rows := map[];
    for i := 0 to |paths|
      invariant forall p :: p in rows <==> p in paths[..i]
      invariant forall p | p in rows :: rows[p] == Stamp(p, disk, prev)
    {
      var p := paths[i];
      assert paths[..i + 1] == paths[..i] + [p];
      if p !in disk {
        rows := rows[p := Row(p, 0, 0, MISSING)];
      } else {
        var f := disk[p];
        var reuse := p in prev && Reusable(f, prev[p]);
        rows := rows[p := Row(p, f.mtime, f.size, if reuse then prev[p].sha else f.sha)];
      }
    }
    assert paths[..|paths|] == paths;
  }

  // ----- drift -----

  /** Present then or now, and not with the same sha. */
  predicate Drifted(now: map<string, Row>, prev: map<string, Row>, path: string)
  {
    && (path in now || path in prev)
    && !(path in now && path in prev && now[path].sha == prev[path].sha)
  }

  method StampChangedPaths(now: map<string, Row>, prev: map<string, Row>) returns (changed: set<string>)
    ensures forall p :: p in changed <==> Drifted(now, prev, p)
  {
    changed := {};
    var todo := now.Keys;
    while todo != {}
      invariant todo <= now.Keys
      invariant forall p :: p in changed <==> p in now && p !in todo && Drifted(now, prev, p)
    {
      var p :| p in todo;
      if p !in prev || prev[p].sha != now[p].sha { changed := changed + {p}; }
      todo := todo - {p};
    }
    todo := prev.Keys;
    while todo != {}
      invariant todo <= prev.Keys
      invariant forall p :: p in changed <==> (p in now || (p in prev && p !in todo)) && Drifted(now, prev, p)
    {
      var p :| p in todo;
      if p !in now { changed := changed + {p}; }
      todo := todo - {p};
    }
  }

  // ----- the include graph -----

  /** A chain of includes from the first to the last file. */
  ghost predicate IncludePath(graph: Graph, w: seq<string>)
  {
    w != [] && forall k | 0 < k < |w| :: Includes(graph, w[k - 1], w[k])
  }

  /** Some chain of includes leads from `path` into `seeds`. */
  ghost predicate Leads(graph: Graph, path: string, seeds: set<string>)
  {
    exists w :: IncludePath(graph, w) && w[0] == path && w[|w| - 1] in seeds
  }

  lemma {:induction false} LeadsStep(graph: Graph, a: string, b: string, seeds: set<string>)
    requires Includes(graph, a, b) && Leads(graph, b, seeds)
    ensures Leads(graph, a, seeds)
  {
    var w :| IncludePath(graph, w) && w[0] == b && w[|w| - 1] in seeds;
    var v := [a] + w;
    assert IncludePath(graph, v) && v[0] == a && v[|v| - 1] in seeds;
  }

  /** A set that holds the seeds and, with each file, all that include it, holds everything that leads to a seed. */
  lemma {:induction false} ClosedHoldsAll(graph: Graph, seeds: set<string>, out: set<string>, w: seq<string>)
    requires seeds <= out && forall a, b | Includes(graph, a, b) && b in out :: a in out
    requires IncludePath(graph, w) && w[|w| - 1] in seeds
    ensures w[0] in out
    decreases |w|
  {
    if |w| > 1 {
      assert w[1..][|w[1..]| - 1] == w[|w| - 1];
      ClosedHoldsAll(graph, seeds, out, w[1..]);
      assert Includes(graph, w[0], w[1]);
    }
  }

  function Includers(graph: Graph, b: string): set<string>
  {
    set a | a in graph && b in graph[a]
  }

  /** What the search keeps: all found files lead to a seed, and only queued files have includers not found yet. */
  ghost predicate Explored(graph: Graph, seeds: set<string>, all: set<string>, out: set<string>, queue: set<string>)
  {
    && seeds <= out && queue <= out && out <= all
    && (forall p | p in out :: Leads(graph, p, seeds))
    && (forall a, b | Includes(graph, a, b) && b in out && b !in queue :: a in out)
  }

  lemma {:induction false} SeedsExplored(graph: Graph, seeds: set<string>, all: set<string>)
    requires seeds <= all
    ensures Explored(graph, seeds, all, seeds, seeds)
  {
    forall p | p in seeds ensures Leads(graph, p, seeds) { assert IncludePath(graph, [p]); }
  }

  lemma {:induction false} ParentsExplored(
    graph: Graph, seeds: set<string>, all: set<string>, out: set<string>, queue: set<string>, cur: string,
    parents: set<string>)
    requires cur in queue && graph.Keys <= all && Explored(graph, seeds, all, out, queue)
    requires parents == Includers(graph, cur) - out
    ensures Explored(graph, seeds, all, out + parents, queue - {cur} + parents)
  {
    forall a | a in parents ensures Leads(graph, a, seeds) { LeadsStep(graph, a, cur, seeds); }
  }

  /** Either something new is found, or the queue gets shorter. */
  lemma {:induction false} SearchProgresses(all: set<string>, out: set<string>, queue: set<string>, cur: string,
                                            parents: set<string>)
    requires cur in queue && out + parents <= all && out !! parents
    ensures |out + parents| <= |all| && (parents != {} ==> |out| < |out + parents|)
    ensures parents == {} ==> out + parents == out && |queue - {cur} + parents| < |queue|
  {
    GrowsWithin(out, parents, all);
    if parents == {} { assert queue - {cur} + parents == queue - {cur}; } else { NotEmpty(parents); }
  }

  lemma {:induction false} NotEmpty(s: set<string>)
    requires s != {}
    ensures |s| > 0
  {
  }

  lemma {:induction false} ExploredAll(graph: Graph, seeds: set<string>, all: set<string>, out: set<string>)
    requires Explored(graph, seeds, all, out, {})
    ensures forall p :: p in out <==> Leads(graph, p, seeds)
  {
    forall p | Leads(graph, p, seeds) ensures p in out {
      var w :| IncludePath(graph, w) && w[0] == p && w[|w| - 1] in seeds;
      ClosedHoldsAll(graph, seeds, out, w);
    }
  }

  /** The changed files, and every file that includes one of them through any chain. */
  method IncludeReverseClosure(changed: set<string>, graph: Graph) returns (out: set<string>)
    ensures forall p :: p in out <==> Leads(graph, p, changed - {""})
  {
    var seeds := changed - {""};
    ghost var all := seeds + graph.Keys;
    SeedsExplored(graph, seeds, all);
    out := seeds;
    var queue := seeds;
    while queue != {}
      invariant Explored(graph, seeds, all, out, queue)
      decreases |all| - |out|, |queue|
    {
      var cur :| cur in queue;
      var parents := Includers(graph, cur) - out;
      ParentsExplored(graph, seeds, all, out, queue, cur, parents);
      SearchProgresses(all, out, queue, cur, parents);
      out, queue := out + parents, queue - {cur} + parents;
    }
    ExploredAll(graph, seeds, all, out);
  }

  lemma {:induction false} GrowsWithin(out: set<string>, more: set<string>, all: set<string>)
    requires out <= all && more <= all && out !! more
    ensures |out + more| <= |all| && |out + more| == |out| + |more|
  {
    SubsetCard(out + more, all);
  }

  // ----- the reuse decision -----

  /** What identifies an extraction; equal hashes mean equal contents here. */
  datatype Identity = Identity(
    scope: string, build: string, version: string, confirmed: seq<string>, shas: map<string, string>)

  datatype Meta = Meta(identity: Identity, stamps: map<string, Row>, graph: Graph)

  function Shas(stamps: map<string, Row>): map<string, string>
  {
    map p | p in stamps :: stamps[p].sha
  }

  /** Stamps and identity were computed together, over the confirmed sources. */
  ghost predicate Computed(m: Meta)
  {
    m.identity.shas == Shas(m.stamps) && forall p :: p in m.stamps <==> p in m.identity.confirmed
  }

  /** The drifted files; an empty path is no file. */
  function DriftedFiles(now: map<string, Row>, prev: map<string, Row>): set<string>
  {
    set q | q in now.Keys + prev.Keys && q != "" && Drifted(now, prev, q)
  }

  /** The paths outside a set, in their order. */
  function Without(paths: seq<string>, out: set<string>): seq<string>
  {
    if paths == [] then []
    else
      var front, p := Without(paths[..|paths| - 1], out), paths[|paths| - 1];
      if p in out then front else front + [p]
  }

  lemma {:induction false} WithoutKeeps(paths: seq<string>, out: set<string>)
    ensures forall p :: p in Without(paths, out) <==> p in paths && p !in out
    decreases paths
  {
    if paths != [] {
      WithoutKeeps(paths[..|paths| - 1], out);
      assert paths == paths[..|paths| - 1] + [paths[|paths| - 1]];
    }
  }

  lemma {:induction false} WithoutAll(paths: seq<string>, out: set<string>)
    requires forall p | p in paths :: p in out
    ensures Without(paths, out) == []
    decreases paths
  {
    if paths != [] { WithoutAll(paths[..|paths| - 1], out); }
  }

  lemma {:induction false} WithoutNone(paths: seq<string>)
    ensures Without(paths, {}) == paths
    decreases paths
  {
    if paths != [] {
      WithoutNone(paths[..|paths| - 1]);
      assert paths == paths[..|paths| - 1] + [paths[|paths| - 1]];
    }
  }

  /** Keeps a confirmed source iff nothing it includes, itself included, has drifted. */
  method UnchangedSources(now: Meta, previous: Option<Meta>) returns (kept: seq<string>, changed: set<string>)
    requires Computed(now) && (previous.Some? ==> Computed(previous.value))
    ensures kept == Without(now.identity.confirmed, changed)
    ensures previous.None? ==> forall p :: p in changed <==> p in now.identity.confirmed
    ensures previous.Some? ==>
              forall p :: p in changed <==> Leads(now.graph, p, DriftedFiles(now.stamps, previous.value.stamps))
  {
    var rels := now.identity.confirmed;
    match previous
    case None =>
      kept, changed := [], set p | p in rels;
      WithoutAll(rels, changed);
    case Some(before) =>
      ghost var drifted := DriftedFiles(now.stamps, before.stamps);
      if before.identity == now.identity {
        NothingDrifted(now, before);
        assert drifted == {};
        kept, changed := rels, {};
        WithoutNone(rels);
      } else {
        var direct := StampChangedPaths(now.stamps, before.stamps);
        assert direct - {""} == drifted;
        changed := IncludeReverseClosure(direct, now.graph);
        kept := [];
        for i := 0 to |rels|
          invariant kept == Without(rels[..i], changed)
        {
          assert rels[..i + 1][..i] == rels[..i];
          if rels[i] !in changed { kept := kept + [rels[i]]; }
        }
        assert rels[..|rels|] == rels;
      }
  }

  /** What is kept: the confirmed sources from which no include path leads to a drifted file. */
  lemma {:induction false} KeptIffNothingDriftedBelow(
    now: Meta, before: Meta, kept: seq<string>, changed: set<string>, p: string)
    requires kept == Without(now.identity.confirmed, changed)
    requires forall q :: q in changed <==> Leads(now.graph, q, DriftedFiles(now.stamps, before.stamps))
    ensures p in kept <==>
              && p in now.identity.confirmed
              && forall w | IncludePath(now.graph, w) && w[0] == p ::
                   w[|w| - 1] == "" || !Drifted(now.stamps, before.stamps, w[|w| - 1])
  {
    WithoutKeeps(now.identity.confirmed, changed);
  }

  /** Equal identities leave no room for drift. */
  lemma {:induction false} NothingDrifted(now: Meta, before: Meta)
    requires Computed(now) && Computed(before) && before.identity == now.identity
    ensures forall q :: !Drifted(now.stamps, before.stamps, q)
  {
    forall q | q in now.stamps && q in before.stamps ensures now.stamps[q].sha == before.stamps[q].sha {
      assert Shas(now.stamps)[q] == Shas(before.stamps)[q];
    }
  }

  // ----- from one extraction to the next -----

  /** Shas stand for contents, and none reads as absent. */
  ghost predicate Hashed(disk: map<string, File>)
  {
    forall p | p in disk :: disk[p].sha != "" && disk[p].sha != MISSING
  }

  /** Stamps and include graph of an extraction were taken from `disk`, knowing the stamps of the one before. */
  ghost predicate Extracted(t: Reading, m: Meta, disk: map<string, File>, prev: map<string, Row>)
  {
    && Computed(m) && (forall p | p in m.stamps :: m.stamps[p] == Stamp(p, disk, prev))
    && m.graph == GraphOf(t, m.identity.confirmed, disk)
  }

  /** The file is there at only one of the two times, or holds something else. */
  predicate Rewritten(disk: map<string, File>, disk': map<string, File>, path: string)
  {
    (path in disk) != (path in disk') || (path in disk && disk[path].sha != disk'[path].sha)
  }

  /** A file that keeps its time and its size; a time or size of zero never counts as kept. */
  predicate LooksKept(disk: map<string, File>, disk': map<string, File>, path: string)
  {
    && path in disk && path in disk'
    && SameNumber(disk[path].mtime, disk'[path].mtime) && SameNumber(disk[path].size, disk'[path].size)
  }

  /** The same number, other than zero; what was zero counts as -1. */
  predicate SameNumber(n: int, n': int) { (n' == n && n != 0) || (n' == -1 && n == 0) }

  /** Confirmed at only one of the two times, or rewritten. */
  predicate Changed(before: Meta, disk: map<string, File>, now: Meta, disk': map<string, File>, path: string)
  {
    (path in before.stamps) != (path in now.stamps) || (path in now.stamps && Rewritten(disk, disk', path))
  }

  /** What drifted is what changed, except a file rewritten behind its time and size. */
  lemma {:induction false} DriftedIff(
    t: Reading, before: Meta, disk: map<string, File>, now: Meta, disk': map<string, File>, path: string)
    requires Extracted(t, before, disk, map[]) && Extracted(t, now, disk', before.stamps) && Hashed(disk) &&
            Hashed(disk')
    ensures Drifted(now.stamps, before.stamps, path) <==>
              Changed(before, disk, now, disk', path)
              && !(path in before.stamps && path in now.stamps && LooksKept(disk, disk', path))
  {
    if path in before.stamps && path in now.stamps {
      assert before.stamps[path] == Stamp(path, disk, map[]);
      assert now.stamps[path] == Stamp(path, disk', before.stamps);
      StampsDifferIff(path, disk, disk', before.stamps);
    }
  }

  lemma {:induction false} StampsDifferIff(
    path: string, disk: map<string, File>, disk': map<string, File>, prev: map<string, Row>)
    requires Hashed(disk) && Hashed(disk') && path in prev && prev[path] == Stamp(path, disk, map[])
    ensures Stamp(path, disk', prev).sha != prev[path].sha <==>
            Rewritten(disk, disk', path) && !LooksKept(disk, disk', path)
  {
  }

  // ----- runs of extractions -----

  /** Some file is rewritten behind its time and size. */
  ghost predicate Hides(disk: map<string, File>, disk': map<string, File>)
  {
    exists p :: Rewritten(disk, disk', p) && LooksKept(disk, disk', p)
  }

  /** The row tells what lies on disk. */
  predicate Tells(r: Row, p: string, disk: map<string, File>)
  {
    r == if p in disk then Row(p, disk[p].mtime, disk[p].size, disk[p].sha) else Row(p, 0, 0, MISSING)
  }

  ghost predicate True(rows: map<string, Row>, disk: map<string, File>)
  {
    forall p | p in rows :: Tells(rows[p], p, disk)
  }

  /** One stamp tells what lies on disk, reused or not, unless the file was rewritten behind its time and size. */
  lemma {:induction false} StampIsTrue(
    path: string, disk: map<string, File>, disk': map<string, File>, prev: map<string, Row>)
    requires Hashed(disk) && Hashed(disk') && (path in prev ==> Tells(prev[path], path, disk))
    requires !(Rewritten(disk, disk', path) && LooksKept(disk, disk', path))
    ensures Tells(Stamp(path, disk', prev), path, disk')
  {
  }

  /** Stamps taken one after the other, each knowing those before. */
  ghost predicate StampedInTurn(disks: seq<map<string, File>>, rows: seq<map<string, Row>>)
  {
    && |rows| == |disks|
    && forall i, p | 0 <= i < |rows| && p in rows[i] ::
         rows[i][p] == Stamp(p, disks[i], if i == 0 then map[] else rows[i - 1])
  }

  lemma {:induction false} StampsAreTrue(
    disk: map<string, File>, disk': map<string, File>, prev: map<string, Row>, rows: map<string, Row>)
    requires Hashed(disk) && Hashed(disk') && True(prev, disk) && !Hides(disk, disk')
    requires forall p | p in rows :: rows[p] == Stamp(p, disk', prev)
    ensures True(rows, disk')
  {
    forall p | p in rows ensures Tells(rows[p], p, disk') { StampIsTrue(p, disk, disk', prev); }
  }

  /** Over any number of extractions, whatever is confirmed, added, removed or rewritten: as long as no file is
      rewritten behind its time and size from one to the next, every row of every extraction tells what lay on disk. */
  lemma {:induction false} RunStaysTrue(disks: seq<map<string, File>>, rows: seq<map<string, Row>>, n: nat)
    requires StampedInTurn(disks, rows) && n < |rows|
    requires forall i | 0 <= i < |disks| :: Hashed(disks[i])
    requires forall i | 0 < i < |disks| :: !Hides(disks[i - 1], disks[i])
    ensures True(rows[n], disks[n])
    decreases n
  {
    if n > 0 {
      RunStaysTrue(disks, rows, n - 1);
      assert !Hides(disks[n - 1], disks[n]);
      StampsAreTrue(disks[n - 1], disks[n], rows[n - 1], rows[n]);
    }
  }

  /** An extraction with true rows is as good as one that knew nothing before. */
  lemma {:induction false} TrueIsCold(t: Reading, m: Meta, disk: map<string, File>, prev: map<string, Row>)
    requires Extracted(t, m, disk, prev) && True(m.stamps, disk)
    ensures Extracted(t, m, disk, map[])
  {
  }

  function ChangedFiles(before: Meta, disk: map<string, File>, now: Meta, disk': map<string, File>): set<string>
  {
    set q | q in now.stamps.Keys + before.stamps.Keys && q != "" && Changed(before, disk, now, disk', q)
  }

  /** Confirmed files rewritten behind their time and size. */
  function UnnoticedFiles(before: Meta, disk: map<string, File>, now: Meta, disk': map<string, File>): set<string>
  {
    set q | q in now.stamps.Keys * before.stamps.Keys && q != "" && Rewritten(disk, disk', q) &&
        LooksKept(disk, disk', q)
  }

  lemma {:induction false} ChangedAreDriftedOrUnnoticed(
    t: Reading, before: Meta, disk: map<string, File>, now: Meta, disk': map<string, File>)
    requires Extracted(t, before, disk, map[]) && Extracted(t, now, disk', before.stamps) && Hashed(disk) &&
            Hashed(disk')
    ensures ChangedFiles(before, disk, now, disk')
            == DriftedFiles(now.stamps, before.stamps) + UnnoticedFiles(before, disk, now, disk')
  {
    forall q ensures q in ChangedFiles(before, disk, now, disk') <==>
                     q in DriftedFiles(now.stamps, before.stamps) || q in UnnoticedFiles(before, disk, now, disk')
    {
      DriftedIff(t, before, disk, now, disk', q);
    }
  }

  lemma {:induction false} LeadsToEither(graph: Graph, p: string, some: set<string>, others: set<string>)
    ensures Leads(graph, p, some + others) <==> Leads(graph, p, some) || Leads(graph, p, others)
  {
    if Leads(graph, p, some + others) {
      var w :| IncludePath(graph, w) && w[0] == p && w[|w| - 1] in some + others;
      assert w[|w| - 1] in some || w[|w| - 1] in others;
    }
    if w :| IncludePath(graph, w) && w[0] == p && w[|w| - 1] in some { assert w[|w| - 1] in some + others; }
    if w :| IncludePath(graph, w) && w[0] == p && w[|w| - 1] in others { assert w[|w| - 1] in some + others; }
  }

  // ----- which sources are right to keep -----

  /** Neither what the source included then nor what it includes now has changed. */
  ghost predicate Right(before: Meta, disk: map<string, File>, now: Meta, disk': map<string, File>, p: string)
  {
    var changed := ChangedFiles(before, disk, now, disk');
    !Leads(before.graph, p, changed) && !Leads(now.graph, p, changed)
  }

  /** What was confirmed and is so no more. */
  function RemovedFiles(before: Meta, now: Meta): set<string>
  {
    set q | q in before.stamps && q !in now.stamps && q != ""
  }

  /** What reuse does not see: removed files where they were included, and files rewritten behind time and size. */
  ghost predicate Overlooked(before: Meta, disk: map<string, File>, now: Meta, disk': map<string, File>, p: string)
  {
    var unnoticed := UnnoticedFiles(before, disk, now, disk');
    || Leads(before.graph, p, RemovedFiles(before, now))
    || Leads(before.graph, p, unnoticed) || Leads(now.graph, p, unnoticed)
  }

  lemma {:induction false} LeadsAtOnce(graph: Graph, p: string, seeds: set<string>)
    requires p in seeds
    ensures Leads(graph, p, seeds)
  {
    assert IncludePath(graph, [p]);
  }

  lemma {:induction false} LeadsToMore(graph: Graph, p: string, seeds: set<string>, more: set<string>)
    requires Leads(graph, p, seeds) && seeds <= more
    ensures Leads(graph, p, more)
  {
    var w :| IncludePath(graph, w) && w[0] == p && w[|w| - 1] in seeds;
    assert w[|w| - 1] in more;
  }

  /** An include in an unchanged file goes where it went, if that is still confirmed, or else to a new file. */
  lemma {:induction false} EdgePersists(
    t: Reading, before: Meta, disk: map<string, File>, now: Meta, disk': map<string, File>, a: string, b: string)
    requires Extracted(t, before, disk, map[]) && Extracted(t, now, disk', before.stamps)
    requires Includes(before.graph, a, b) && !Changed(before, disk, now, disk', a) && b in now.stamps
    ensures Includes(now.graph, a, b) || Leads(now.graph, a, DriftedFiles(now.stamps, before.stamps))
  {
    var rels, rels' := Rels(before.identity.confirmed), Rels(now.identity.confirmed);
    IncludesIff(t, before.identity.confirmed, disk, a, b);
    var inc :| inc in QuotedIn(t, disk, a) && Resolve(t, inc, a, rels) == Some(b);
    assert a in before.stamps && a in now.stamps && QuotedIn(t, disk, a) == QuotedIn(t, disk', a);
    assert b in rels';
    ResolveKeeps(t, inc, a, rels, rels');
    var y := Resolve(t, inc, a, rels').value;
    IncludesIff(t, now.identity.confirmed, disk', a, y);
    if y != b {
      assert y in now.stamps && y !in before.stamps;
      LeadsAtOnce(now.graph, y, DriftedFiles(now.stamps, before.stamps));
      LeadsStep(now.graph, a, y, DriftedFiles(now.stamps, before.stamps));
    }
  }

  /** A chain of earlier includes into a changed file: the file is found drifted now, or something was overlooked. */
  lemma {:induction false} OldPathLeads(
    t: Reading, before: Meta, disk: map<string, File>, now: Meta, disk': map<string, File>, w: seq<string>)
    requires Extracted(t, before, disk, map[]) && Extracted(t, now, disk', before.stamps) && Hashed(disk) &&
            Hashed(disk')
    requires IncludePath(before.graph, w) && w[|w| - 1] in ChangedFiles(before, disk, now, disk') && w[0] in now.stamps
    ensures || Leads(now.graph, w[0], DriftedFiles(now.stamps, before.stamps))
            || Overlooked(before, disk, now, disk', w[0])
    decreases |w|
  {
    ChangedShows(t, before, disk, now, disk', w[0]);
    if w[0] !in ChangedFiles(before, disk, now, disk') {
      assert |w| > 1 && Includes(before.graph, w[0], w[1]);
      IncludesIff(t, before.identity.confirmed, disk, w[0], w[1]);
      if w[1] in now.stamps {
        OldPathGoesOn(t, before, disk, now, disk', w);
      } else {
        LeadsAtOnce(before.graph, w[1], RemovedFiles(before, now));
        LeadsStep(before.graph, w[0], w[1], RemovedFiles(before, now));
      }
    }
  }

  lemma {:induction false} ChangedShows(
    t: Reading, before: Meta, disk: map<string, File>, now: Meta, disk': map<string, File>, a: string)
    requires Extracted(t, before, disk, map[]) && Extracted(t, now, disk', before.stamps) && Hashed(disk) &&
            Hashed(disk')
    ensures a in ChangedFiles(before, disk, now, disk') ==>
              || Leads(now.graph, a, DriftedFiles(now.stamps, before.stamps))
              || Overlooked(before, disk, now, disk', a)
  {
    var drifted, unnoticed := DriftedFiles(now.stamps, before.stamps), UnnoticedFiles(before, disk, now, disk');
    ChangedAreDriftedOrUnnoticed(t, before, disk, now, disk');
    if a in drifted {
      LeadsAtOnce(now.graph, a, drifted);
    } else if a in unnoticed {
      LeadsAtOnce(before.graph, a, unnoticed);
    }
  }

  lemma {:induction false} OldPathGoesOn(
    t: Reading, before: Meta, disk: map<string, File>, now: Meta, disk': map<string, File>, w: seq<string>)
    requires Extracted(t, before, disk, map[]) && Extracted(t, now, disk', before.stamps) && Hashed(disk) &&
            Hashed(disk')
    requires IncludePath(before.graph, w) && w[|w| - 1] in ChangedFiles(before, disk, now, disk') && |w| > 1
    requires !Changed(before, disk, now, disk', w[0]) && w[0] in now.stamps && w[1] in now.stamps
    ensures || Leads(now.graph, w[0], DriftedFiles(now.stamps, before.stamps))
            || Overlooked(before, disk, now, disk', w[0])
    decreases |w|, 0
  {
    var drifted, unnoticed := DriftedFiles(now.stamps, before.stamps), UnnoticedFiles(before, disk, now, disk');
    assert Includes(before.graph, w[0], w[1]) && w[1..][|w[1..]| - 1] == w[|w| - 1];
    OldPathLeads(t, before, disk, now, disk', w[1..]);
    EdgePersists(t, before, disk, now, disk', w[0], w[1]);
    StepOver(before.graph, w[0], w[1], RemovedFiles(before, now));
    StepOver(before.graph, w[0], w[1], unnoticed);
    StepOver(now.graph, w[0], w[1], unnoticed);
    StepOver(now.graph, w[0], w[1], drifted);
  }

  lemma {:induction false} StepOver(graph: Graph, a: string, b: string, seeds: set<string>)
    ensures Includes(graph, a, b) && Leads(graph, b, seeds) ==> Leads(graph, a, seeds)
  {
    if Includes(graph, a, b) && Leads(graph, b, seeds) { LeadsStep(graph, a, b, seeds); }
  }

  /** A confirmed source is right to keep exactly when it leads to no drifted file now and nothing was overlooked. */
  lemma {:induction false} RightIff(
    t: Reading, before: Meta, disk: map<string, File>, now: Meta, disk': map<string, File>, p: string)
    requires Extracted(t, before, disk, map[]) && Extracted(t, now, disk', before.stamps) && Hashed(disk) &&
            Hashed(disk')
    requires p in now.identity.confirmed
    ensures Right(before, disk, now, disk', p) <==>
            !Leads(now.graph, p, DriftedFiles(now.stamps, before.stamps)) && !Overlooked(before, disk, now, disk', p)
  {
    var drifted, unnoticed := DriftedFiles(now.stamps, before.stamps), UnnoticedFiles(before, disk, now, disk');
    ChangedAreDriftedOrUnnoticed(t, before, disk, now, disk');
    LeadsToEither(now.graph, p, drifted, unnoticed);
    OldChangesShow(t, before, disk, now, disk', p);
    OverlookedAreChanged(before, disk, now, disk', p);
  }

  lemma {:induction false} OldChangesShow(
    t: Reading, before: Meta, disk: map<string, File>, now: Meta, disk': map<string, File>, p: string)
    requires Extracted(t, before, disk, map[]) && Extracted(t, now, disk', before.stamps) && Hashed(disk) &&
            Hashed(disk')
    requires p in now.identity.confirmed
    ensures Leads(before.graph, p, ChangedFiles(before, disk, now, disk')) ==>
              || Leads(now.graph, p, DriftedFiles(now.stamps, before.stamps))
              || Overlooked(before, disk, now, disk', p)
  {
    forall w | IncludePath(before.graph, w) && w[0] == p && w[|w| - 1] in ChangedFiles(before, disk, now, disk')
      ensures || Leads(now.graph, p, DriftedFiles(now.stamps, before.stamps))
              || Overlooked(before, disk, now, disk', p)
    {
      OldPathLeads(t, before, disk, now, disk', w);
    }
  }

  lemma {:induction false} OverlookedAreChanged(
    before: Meta, disk: map<string, File>, now: Meta, disk': map<string, File>, p: string)
    ensures Overlooked(before, disk, now, disk', p) ==> !Right(before, disk, now, disk', p)
  {
    var changed, unnoticed := ChangedFiles(before, disk, now, disk'), UnnoticedFiles(before, disk, now, disk');
    OverlookedFilesChanged(before, disk, now, disk');
    if Leads(before.graph, p, RemovedFiles(before, now)) {
      LeadsToMore(before.graph, p, RemovedFiles(before, now), changed);
    }
    if Leads(before.graph, p, unnoticed) { LeadsToMore(before.graph, p, unnoticed, changed); }
    if Leads(now.graph, p, unnoticed) { LeadsToMore(now.graph, p, unnoticed, changed); }
  }

  lemma {:induction false} OverlookedFilesChanged(
    before: Meta, disk: map<string, File>, now: Meta, disk': map<string, File>)
    ensures RemovedFiles(before, now) <= ChangedFiles(before, disk, now, disk')
    ensures UnnoticedFiles(before, disk, now, disk') <= ChangedFiles(before, disk, now, disk')
  {
  }

  /** What the reuse decision returns. */
  ghost predicate Decided(before: Meta, now: Meta, kept: seq<string>, changed: set<string>)
  {
    && kept == Without(now.identity.confirmed, changed)
    && forall q :: q in changed <==> Leads(now.graph, q, DriftedFiles(now.stamps, before.stamps))
  }

  /** A kept source is wrong to keep if and only if it led to a removed file before, or leads or led to a file
      rewritten behind its time and size. */
  lemma {:induction false} KeptWronglyIff(
    t: Reading, before: Meta, disk: map<string, File>, now: Meta, disk': map<string, File>, kept: seq<string>,
    changed: set<string>, p: string)
    requires Extracted(t, before, disk, map[]) && Extracted(t, now, disk', before.stamps) && Hashed(disk) &&
            Hashed(disk')
    requires Decided(before, now, kept, changed) && p in kept
    ensures !Right(before, disk, now, disk', p) <==> Overlooked(before, disk, now, disk', p)
  {
    WithoutKeeps(now.identity.confirmed, changed);
    RightIff(t, before, disk, now, disk', p);
  }

  /** Reuse keeps exactly the sources that are right to keep if and only if nothing was overlooked for a kept one. */
  lemma {:induction false} ReuseIsRightIff(
    t: Reading, before: Meta, disk: map<string, File>, now: Meta, disk': map<string, File>, kept: seq<string>,
    changed: set<string>)
    requires Extracted(t, before, disk, map[]) && Extracted(t, now, disk', before.stamps) && Hashed(disk) &&
            Hashed(disk')
    requires Decided(before, now, kept, changed)
    ensures (forall p | p in now.identity.confirmed :: p in kept <==> Right(before, disk, now, disk', p)) <==>
            (forall p | p in kept :: !Overlooked(before, disk, now, disk', p))
  {
    WithoutKeeps(now.identity.confirmed, changed);
    forall p | p in now.identity.confirmed
      ensures Right(before, disk, now, disk', p) <==> p in kept && !Overlooked(before, disk, now, disk', p)
    {
      RightIff(t, before, disk, now, disk', p);
    }
  }

  /** When every file confirmed before still is, and none was rewritten behind its time and size, a source is kept
      if and only if it is confirmed and no include path, of then or of now, leads from it to a file that changed. */
  lemma {:induction false} KeptIffContentsKept(
    t: Reading, before: Meta, disk: map<string, File>, now: Meta, disk': map<string, File>, kept: seq<string>,
    changed: set<string>, p: string)
    requires Extracted(t, before, disk, map[]) && Extracted(t, now, disk', before.stamps) && Hashed(disk) &&
            Hashed(disk')
    requires RemovedFiles(before, now) == {} && UnnoticedFiles(before, disk, now, disk') == {}
    requires Decided(before, now, kept, changed)
    ensures p in kept <==> p in now.identity.confirmed && Right(before, disk, now, disk', p)
  {
    WithoutKeeps(now.identity.confirmed, changed);
    NothingOverlooked(before, disk, now, disk', p);
    if p in now.identity.confirmed { RightIff(t, before, disk, now, disk', p); }
  }

  lemma {:induction false} NothingOverlooked(
    before: Meta, disk: map<string, File>, now: Meta, disk': map<string, File>, p: string)
    requires RemovedFiles(before, now) == {} && UnnoticedFiles(before, disk, now, disk') == {}
    ensures !Overlooked(before, disk, now, disk', p)
  {
  }

  // ----- sources that are kept wrongly -----

  function MetaOf(confirmed: seq<string>, stamps: map<string, Row>, graph: Graph): Meta
  {
    Meta(Identity("", "", "", confirmed, Shas(stamps)), stamps, graph)
  }

  /** A source `a` rewritten within the same time and size is kept. */
  lemma {:induction false} RewrittenSourceIsKept(t: Reading, a: string, kept: seq<string>, changed: set<string>)
    requires a != "" && t.quoted("x") == [] && t.quoted("y") == []
    ensures var disk, disk' := map[a := File(5, 3, "x")], map[a := File(5, 3, "y")];
            var meta := MetaOf([a], map[a := Row(a, 5, 3, "x")], map[a := []]);
            && Extracted(t, meta, disk, map[]) && Extracted(t, meta, disk', meta.stamps)
            && (Decided(meta, meta, kept, changed) ==> kept == [a] && !Right(meta, disk, meta, disk', a))
  {
    RewrittenIsExtracted(t, a, 5, 3, "x", "y");
    var meta := MetaOf([a], map[a := Row(a, 5, 3, "x")], map[a := []]);
    if Decided(meta, meta, kept, changed) {
      KeptWithoutDrift(meta, kept, changed);
      RewrittenIsWrong(meta, map[a := File(5, 3, "x")], map[a := File(5, 3, "y")], a);
    }
  }

  lemma {:induction false} RewrittenIsExtracted(t: Reading, a: string, mtime: int, size: int, x: string, y: string)
    requires a != "" && t.quoted(x) == [] && t.quoted(y) == [] && x != "" && x != MISSING && mtime != 0 && size != 0
    ensures var meta := MetaOf([a], map[a := Row(a, mtime, size, x)], map[a := []]);
            && Extracted(t, meta, map[a := File(mtime, size, x)], map[])
            && Extracted(t, meta, map[a := File(mtime, size, y)], meta.stamps)
  {
    SingleGraph(t, a, map[a := File(mtime, size, x)]);
    SingleGraph(t, a, map[a := File(mtime, size, y)]);
  }

  lemma {:induction false} SingleGraph(t: Reading, a: string, disk: map<string, File>)
    requires a != "" && QuotedIn(t, disk, a) == []
    ensures GraphOf(t, [a], disk) == map[a := []]
  {
    assert Rels([a]) == {a};
  }

  lemma {:induction false} KeptWithoutDrift(meta: Meta, kept: seq<string>, changed: set<string>)
    requires Decided(meta, meta, kept, changed)
    ensures kept == meta.identity.confirmed
  {
    assert DriftedFiles(meta.stamps, meta.stamps) == {};
    assert changed == {};
    WithoutNone(meta.identity.confirmed);
  }

  lemma {:induction false} RewrittenIsWrong(meta: Meta, disk: map<string, File>, disk': map<string, File>, a: string)
    requires a != "" && a in meta.stamps && Rewritten(disk, disk', a)
    ensures !Right(meta, disk, meta, disk', a)
  {
    LeadsAtOnce(meta.graph, a, ChangedFiles(meta, disk, meta, disk'));
  }

  /** Two confirmed files, the first of which includes the second. */
  function WithHeader(a: string, b: string, f: File, g: File): Meta
  {
    MetaOf([a, b], map[a := RowOf(a, f), b := RowOf(b, g)], map[a := [b], b := []])
  }

  /** The first of them alone. */
  function WithoutHeader(a: string, f: File): Meta { MetaOf([a], map[a := RowOf(a, f)], map[a := []]) }

  /** Both extractions are what the platform gives when the header is removed in between. */
  lemma {:induction false} RemovedHeaderIsExtracted(t: Reading, a: string, b: string, f: File, g: File)
    requires a != "" && b != "" && a != b && Slashed(b) == b && t.beside(a, b) == b && !Matches(t, b, a)
    requires t.quoted(f.sha) == [b] && t.quoted(g.sha) == []
    ensures Extracted(t, WithHeader(a, b, f, g), map[a := f, b := g], map[])
    ensures Extracted(t, WithoutHeader(a, f), map[a := f], WithHeader(a, b, f, g).stamps)
  {
    HeaderExtracted(t, a, b, f, g);
    HeaderLostExtracted(t, a, b, f, WithHeader(a, b, f, g).stamps);
  }

  /** A source `a` that includes a header `b` is kept, untouched, when `b` is removed: the include then leads nowhere.
      */
  lemma {:induction false} RemovedHeaderIsForgotten(
    a: string, b: string, f: File, g: File, kept: seq<string>, changed: set<string>)
    requires b != "" && a != b
    ensures var disk, disk' := map[a := f, b := g], map[a := f];
            var before, now := WithHeader(a, b, f, g), WithoutHeader(a, f);
            && UnnoticedFiles(before, disk, now, disk') == {}
            && (Decided(before, now, kept, changed) ==> kept == [a] && !Right(before, disk, now, disk', a))
  {
    var disk, disk' := map[a := f, b := g], map[a := f];
    var before, now := WithHeader(a, b, f, g), WithoutHeader(a, f);
    NothingUnnoticed(a, before, disk, now, disk');
    if Decided(before, now, kept, changed) { ForgottenIfDecided(a, b, before, disk, now, disk', kept, changed); }
  }

  lemma {:induction false} ForgottenIfDecided(
    a: string, b: string, before: Meta, disk: map<string, File>, now: Meta, disk': map<string, File>,
    kept: seq<string>, changed: set<string>)
    requires a != b && b != "" && Decided(before, now, kept, changed) && Includes(before.graph, a, b)
    requires before.stamps.Keys == {a, b} && now.stamps.Keys == {a} && before.stamps[a] == now.stamps[a]
    requires now.identity.confirmed == [a] && now.graph == map[a := []]
    ensures kept == [a] && !Right(before, disk, now, disk', a)
  {
    KeptWithoutHeader(a, b, before, now, kept, changed);
    HeaderWasIncluded(a, b, before, disk, now, disk');
  }

  /** Such an input: `a.cpp` with the one line `#include "b.h"`, and an empty `b.h`. */
  lemma {:induction false} RemovedHeaderInput(t: Reading, kept: seq<string>, changed: set<string>)
    requires t.beside("a.cpp", "b.h") == "b.h" && t.name("a.cpp") != t.name("b.h")
    requires t.quoted("x") == ["b.h"] && t.quoted("y") == []
    ensures var f, g := File(5, 3, "x"), File(6, 4, "y");
            var before, now := WithHeader("a.cpp", "b.h", f, g), WithoutHeader("a.cpp", f);
            var disk, disk' := map["a.cpp" := f, "b.h" := g], map["a.cpp" := f];
            && Extracted(t, before, disk, map[]) && Extracted(t, now, disk', before.stamps)
            && UnnoticedFiles(before, disk, now, disk') == {}
            && (Decided(before, now, kept, changed) ==> kept == ["a.cpp"] && !Right(before, disk, now, disk', "a.cpp"))
  {
    assert Slashed("b.h") == "b.h" && "a.cpp"[4] == 'p' && ("/" + "b.h")[3] == 'h';
    RemovedHeaderIsExtracted(t, "a.cpp", "b.h", File(5, 3, "x"), File(6, 4, "y"));
    RemovedHeaderIsForgotten("a.cpp", "b.h", File(5, 3, "x"), File(6, 4, "y"), kept, changed);
  }

  lemma {:induction false} NothingUnnoticed(
    a: string, before: Meta, disk: map<string, File>, now: Meta, disk': map<string, File>)
    requires now.stamps.Keys == {a} && a in disk && a in disk' && disk[a] == disk'[a]
    ensures UnnoticedFiles(before, disk, now, disk') == {}
  {
  }

  lemma {:induction false} KeptWithoutHeader(
    a: string, b: string, before: Meta, now: Meta, kept: seq<string>, changed: set<string>)
    requires a != b && Decided(before, now, kept, changed)
    requires before.stamps.Keys == {a, b} && now.stamps.Keys == {a} && before.stamps[a] == now.stamps[a]
    requires now.identity.confirmed == [a] && now.graph == map[a := []]
    ensures kept == [a]
  {
    NoIncludes(a, DriftedFiles(now.stamps, before.stamps));
    assert a !in changed;
    WithoutOne(a, changed);
  }

  lemma {:induction false} WithoutOne(a: string, out: set<string>)
    requires a !in out
    ensures Without([a], out) == [a]
  {
    assert [a][..0] == [];
    assert Without([a], out) == Without([], out) + [a];
  }

  lemma {:induction false} HeaderWasIncluded(
    a: string, b: string, before: Meta, disk: map<string, File>, now: Meta, disk': map<string, File>)
    requires b != "" && b in before.stamps && b !in now.stamps && Includes(before.graph, a, b)
    ensures !Right(before, disk, now, disk', a)
  {
    LeadsAtOnce(before.graph, b, ChangedFiles(before, disk, now, disk'));
    LeadsStep(before.graph, a, b, ChangedFiles(before, disk, now, disk'));
  }

  lemma {:induction false} NoIncludes(a: string, seeds: set<string>)
    requires a !in seeds
    ensures !Leads(map[a := []], a, seeds)
  {
    forall w | IncludePath(map[a := []], w) && w[0] == a ensures w[|w| - 1] !in seeds {
      assert |w| > 1 ==> Includes(map[a := []], w[0], w[1]);
    }
  }

  function RowOf(path: string, f: File): Row { Row(path, f.mtime, f.size, f.sha) }

  lemma {:induction false} HeaderExtracted(t: Reading, a: string, b: string, f: File, g: File)
    requires a != "" && b != "" && a != b && Slashed(b) == b && t.beside(a, b) == b
    requires t.quoted(f.sha) == [b] && t.quoted(g.sha) == []
    ensures Extracted(t, WithHeader(a, b, f, g), map[a := f, b := g], map[])
  {
    HeaderGraph(t, a, b, map[a := f, b := g]);
  }

  lemma {:induction false} HeaderGraph(t: Reading, a: string, b: string, disk: map<string, File>)
    requires a != "" && b != "" && a != b && Slashed(b) == b && t.beside(a, b) == b
    requires QuotedIn(t, disk, a) == [b] && QuotedIn(t, disk, b) == []
    ensures GraphOf(t, [a, b], disk) == map[a := [b], b := []]
  {
    var rels := Rels([a, b]);
    assert rels == {a, b} && Resolve(t, b, a, rels) == Some(b);
    assert [b][..0] == [] && Targets(t, [b], a, rels) == [b];
  }

  lemma {:induction false} HeaderLostExtracted(t: Reading, a: string, b: string, f: File, prev: map<string, Row>)
    requires a != "" && b != "" && a != b && Slashed(b) == b && t.beside(a, b) == b
    requires t.quoted(f.sha) == [b] && !Matches(t, b, a) && a in prev && prev[a] == RowOf(a, f)
    ensures Extracted(t, WithoutHeader(a, f), map[a := f], prev)
  {
    var rels := Rels([a]);
    assert rels == {a} && Candidates(t, b, rels) == {} && Resolve(t, b, a, rels) == None;
    assert [b][..0] == [] && Targets(t, [b], a, rels) == [];
  }
}
