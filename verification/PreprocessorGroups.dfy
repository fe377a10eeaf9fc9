/** What both scanners report and collect, told from the groups that are open at a directive. */
module PreprocessorGroups {
  import opened Wrappers
  import opened Sequences
  import opened Preprocessor

  // ----- the open sections -----

  predicate OpensSection(d: Directive) { d.If? || d.Ifdef? || d.Ifndef? }

  predicate HasCond(d: Directive) { OpensSection(d) || d.Elif? }

  /** The sections open behind some directives, outermost first, each with the directives of its groups so far. */
  function Sections(ds: seq<Directive>): seq<seq<Directive>>
  {
    if ds == [] then []
    else
      var n := |ds| - 1;
      var before, d := Sections(ds[..n]), ds[n];
      if OpensSection(d) then before + [[d]]
      else if d.Include? || before == [] then before
      else if d.Endif? then before[..|before| - 1]
      else before[..|before| - 1] + [before[|before| - 1] + [d]]
  }

  predicate IsTrue(d: Directive) { HasCond(d) && d.cond.ev == Some(true) }

  predicate IsFalse(d: Directive) { HasCond(d) && d.cond.ev == Some(false) }

  predicate IsUnknown(d: Directive) { HasCond(d) && d.cond.ev == None }

  ghost predicate SomeTrue(g: seq<Directive>) { exists d :: d in g && IsTrue(d) }

  ghost predicate SomeUnknown(g: seq<Directive>) { exists d :: d in g && IsUnknown(d) }

  /** The last group of a section may be the one that is processed: no condition before is true, and its own is not
      false, unless one before is unknown. */
  ghost predicate MayBeTaken(g: seq<Directive>)
  {
    g != [] &&
    var front, last := g[..|g| - 1], g[|g| - 1];
    !SomeTrue(front) && (last.Else? || !IsFalse(last) || SomeUnknown(front))
  }

  /** Every enclosing group may be. */
  ghost predicate AllMayBeTaken(sections: seq<seq<Directive>>)
  {
    forall k | 0 <= k < |sections| :: MayBeTaken(sections[k])
  }

  // ----- what a group records -----

  /** The group's condition tests `name` against `v`, and no other value behind that. */
  ghost predicate RecordsLast(d: Directive, name: string, v: string)
  {
    (d.If? || d.Elif?) && LastPair(d.cond.equalities, name, v)
  }

  ghost predicate Names(eqs: seq<(string, string)>, name: string)
  {
    exists j :: 0 <= j < |eqs| && eqs[j].0 == name
  }

  ghost predicate LastPair(eqs: seq<(string, string)>, name: string, v: string)
  {
    exists j :: 0 <= j < |eqs| && eqs[j] == (name, v) && !Names(eqs[j + 1..], name)
  }

  ghost predicate RecordsName(d: Directive, name: string)
  {
    (d.If? || d.Elif?) && Names(d.cond.equalities, name)
  }

  function Current(g: seq<Directive>): Directive { if g == [] then Endif else g[|g| - 1] }

  /** The innermost open group that records the name records it last with that value. */
  ghost predicate Constrains(sections: seq<seq<Directive>>, name: string, v: string)
  {
    exists k ::
      && 0 <= k < |sections| && RecordsLast(Current(sections[k]), name, v)
      && forall j | k < j < |sections| :: !RecordsName(Current(sections[j]), name)
  }

  // ----- the frames -----

  /** A frame says of its section what the directives of its groups say. */
  ghost predicate Describes(f: Frame, parent: bool, g: seq<Directive>)
  {
    && g != [] && f.parentOn == parent
    && (!parent ==> !f.branchOn)
    && (parent ==>
          && f.branchOn == MayBeTaken(g) && f.anyTaken == SomeTrue(g)
          && f.anyUnknown == (SomeUnknown(g) && !SomeTrue(g))
          && (f.branchOn ==> f.equalities == Recorded(Current(g))))
  }

  lemma {:induction false} SomeSnoc(g: seq<Directive>, d: Directive)
    ensures SomeTrue(g + [d]) <==> SomeTrue(g) || IsTrue(d)
    ensures SomeUnknown(g + [d]) <==> SomeUnknown(g) || IsUnknown(d)
    ensures (g + [d])[..|g + [d]| - 1] == g && Current(g + [d]) == d
    ensures MayBeTaken(g + [d]) <==> !SomeTrue(g) && (d.Else? || !IsFalse(d) || SomeUnknown(g))
  {
    assert forall x :: x in g + [d] <==> x in g || x == d;
    assert (g + [d])[..|g + [d]| - 1] == g;
  }

  lemma {:induction false} PushedDescribes(parent: bool, d: Directive)
    requires OpensSection(d)
    ensures Describes(Pushed(parent, d.cond.ev, Recorded(d)), parent, [d])
  {
    SomeSnoc([], d);
    NothingInFront([d]);
  }

  lemma {:induction false} ElifDescribes(f: Frame, parent: bool, g: seq<Directive>, d: Directive)
    requires d.Elif? && Describes(f, parent, g)
    ensures Describes(AfterElif(f, d.cond.ev, d.cond.equalities), parent, g + [d])
  {
    SomeSnoc(g, d);
  }

  lemma {:induction false} ElseDescribes(f: Frame, parent: bool, g: seq<Directive>, d: Directive)
    requires d.Else? && Describes(f, parent, g)
    ensures Describes(AfterElse(f), parent, g + [d])
  {
    SomeSnoc(g, d);
  }

  /** Frame by frame, the stack describes the open sections. */
  ghost predicate StackDescribes(stack: seq<Frame>, sections: seq<seq<Directive>>)
  {
    && |stack| == |sections|
    && (stack == [] ||
        var n := |stack| - 1;
        StackDescribes(stack[..n], sections[..n]) && Describes(stack[n], TopOn(stack[..n]), sections[n]))
  }

  lemma {:induction false} OneMore(stack: seq<Frame>, sections: seq<seq<Directive>>, f: Frame, g: seq<Directive>)
    requires StackDescribes(stack, sections) && Describes(f, TopOn(stack), g)
    ensures StackDescribes(stack + [f], sections + [g])
  {
    assert (stack + [f])[..|stack|] == stack && (sections + [g])[..|stack|] == sections;
  }

  lemma {:induction false} StepDescribes(stack: seq<Frame>, sections: seq<seq<Directive>>, ds: seq<Directive>)
    requires ds != [] && sections == Sections(ds[..|ds| - 1]) && StackDescribes(stack, sections)
    ensures StackDescribes(Step(stack, ds[|ds| - 1]), Sections(ds))
  {
    var d, n := ds[|ds| - 1], |stack| - 1;
    if OpensSection(d) {
      var f := Pushed(TopOn(stack), d.cond.ev, Recorded(d));
      PushedDescribes(TopOn(stack), d);
      OneMore(stack, sections, f, [d]);
    } else if stack != [] && d.Elif? {
      ElifDescribes(stack[n], TopOn(stack[..n]), sections[n], d);
      OneMore(stack[..n], sections[..n], AfterElif(stack[n], d.cond.ev, d.cond.equalities), sections[n] + [d]);
    } else if stack != [] && d.Else? {
      ElseDescribes(stack[n], TopOn(stack[..n]), sections[n], d);
      OneMore(stack[..n], sections[..n], AfterElse(stack[n]), sections[n] + [d]);
    }
  }

  lemma {:induction false} FinalSnoc(ds: seq<Directive>)
    requires ds != []
    ensures Final(ds, []) == Step(Final(ds[..|ds| - 1], []), ds[|ds| - 1])
  {
    var n := |ds| - 1;
    assert ds == ds[..n] + [ds[n]];
    RunJoin(ds[..n], [ds[n]], []);
    RunOne(ds[n], Final(ds[..n], []));
  }

  lemma {:induction false} FinalDescribes(ds: seq<Directive>)
    ensures StackDescribes(Final(ds, []), Sections(ds))
    decreases |ds|
  {
    if ds != [] {
      FinalDescribes(ds[..|ds| - 1]);
      FinalSnoc(ds);
      StepDescribes(Final(ds[..|ds| - 1], []), Sections(ds[..|ds| - 1]), ds);
    }
  }

  /** The innermost frame is on exactly when every open group may be the one taken. */
  lemma {:induction false} TopOnIff(stack: seq<Frame>, sections: seq<seq<Directive>>)
    requires StackDescribes(stack, sections)
    ensures TopOn(stack) <==> AllMayBeTaken(sections)
    ensures TopOn(stack) ==> forall k | 0 <= k < |stack| :: stack[k].On()
    decreases |stack|
  {
    if stack != [] {
      var n := |stack| - 1;
      TopOnIff(stack[..n], sections[..n]);
      assert forall k | 0 <= k < n :: stack[..n][k] == stack[k] && sections[..n][k] == sections[k];
      assert TopOn(stack) <==> TopOn(stack[..n]) && MayBeTaken(sections[n]);
      AllSnoc(sections);
    }
  }

  lemma {:induction false} AllSnoc(sections: seq<seq<Directive>>)
    requires sections != []
    ensures AllMayBeTaken(sections) <==>
            AllMayBeTaken(sections[..|sections| - 1]) && MayBeTaken(sections[|sections| - 1])
  {
    var n := |sections| - 1;
    var front := sections[..n];
    if AllMayBeTaken(sections) {
      assert MayBeTaken(sections[n]);
      forall k | 0 <= k < |front| ensures MayBeTaken(front[k]) { assert front[k] == sections[k]; }
    }
    if AllMayBeTaken(front) && MayBeTaken(sections[n]) {
      forall k | 0 <= k < |sections| ensures MayBeTaken(sections[k]) { if k < n { assert front[k] == sections[k]; } }
    }
  }

  lemma {:induction false} ReportAt(ds: seq<Directive>, stack: seq<Frame>, i: nat)
    requires i < |ds|
    ensures Reports(ds, stack)[i] == Report(Final(ds[..i], stack), ds[i])
    decreases i
  {
    if i > 0 {
      ReportAt(ds[1..], Step(stack, ds[0]), i - 1);
      assert ds[..i][0] == ds[0] && ds[..i][1..] == ds[1..][..i - 1];
    } else {
      assert ds[..0] == [];
    }
  }

  /** On any directives, well-formed or not: a directive is reported as taken if and only if every group open behind it
      may be the one that is processed; only an `#elif` or `#else` outside every section is not reported. */
  lemma {:induction false} TakenIff(ds: seq<Directive>, i: nat)
    requires i < |ds|
    ensures Reports(ds, [])[i] == None <==> (ds[i].Elif? || ds[i].Else?) && Sections(ds[..i]) == []
    ensures Reports(ds, [])[i] == Some(true) <==>
            !((ds[i].Elif? || ds[i].Else?) && Sections(ds[..i]) == []) && AllMayBeTaken(Sections(ds[..i + 1]))
  {
    ReportAt(ds, [], i);
    FinalDescribes(ds[..i]);
    FinalDescribes(ds[..i + 1]);
    assert ds[..i + 1][..i] == ds[..i] && ds[..i + 1][i] == ds[i];
    FinalSnoc(ds[..i + 1]);
    TopOnIff(Final(ds[..i + 1], []), Sections(ds[..i + 1]));
  }

  // ----- the constraints of a key -----

  lemma {:induction false} MergeIff(m: map<string, string>, eqs: seq<(string, string)>, name: string, v: string)
    ensures name in Merge(m, eqs) && Merge(m, eqs)[name] == v <==>
            LastPair(eqs, name, v) || (!Names(eqs, name) && name in m && m[name] == v)
    decreases eqs
  {
    if eqs != [] {
      MergeIff(m[eqs[0].0 := eqs[0].1], eqs[1..], name, v);
      LastPairCons(eqs, name, v);
    }
  }

  lemma {:induction false} LastPairCons(eqs: seq<(string, string)>, name: string, v: string)
    requires eqs != []
    ensures Names(eqs, name) <==> eqs[0].0 == name || Names(eqs[1..], name)
    ensures LastPair(eqs, name, v) <==>
            LastPair(eqs[1..], name, v) || (eqs[0] == (name, v) && !Names(eqs[1..], name))
  {
    var rest := eqs[1..];
    if Names(rest, name) {
      var j :| 0 <= j < |rest| && rest[j].0 == name;
      assert eqs[j + 1].0 == name;
    }
    if LastPair(rest, name, v) {
      var j :| 0 <= j < |rest| && rest[j] == (name, v) && !Names(rest[j + 1..], name);
      assert eqs[j + 1] == (name, v) && eqs[j + 1 + 1..] == rest[j + 1..];
    }
    if LastPair(eqs, name, v) {
      var j :| 0 <= j < |eqs| && eqs[j] == (name, v) && !Names(eqs[j + 1..], name);
      if j > 0 { assert rest[j - 1] == (name, v) && rest[j - 1 + 1..] == eqs[j + 1..]; }
    }
  }

  lemma {:induction false} ConstrainsSnoc(sections: seq<seq<Directive>>, name: string, v: string)
    requires sections != []
    ensures var n := |sections| - 1;
            Constrains(sections, name, v) <==>
            || RecordsLast(Current(sections[n]), name, v)
            || (!RecordsName(Current(sections[n]), name) && Constrains(sections[..n], name, v))
  {
    var n := |sections| - 1;
    var front := sections[..n];
    assert forall k | 0 <= k < n :: front[k] == sections[k];
    if Constrains(front, name, v) && !RecordsName(Current(sections[n]), name) {
      var k :| 0 <= k < |front| && RecordsLast(Current(front[k]), name, v)
               && forall j | k < j < |front| :: !RecordsName(Current(front[j]), name);
      assert RecordsLast(Current(sections[k]), name, v);
    }
    if Constrains(sections, name, v) {
      var k :| 0 <= k < |sections| && RecordsLast(Current(sections[k]), name, v)
               && forall j | k < j < |sections| :: !RecordsName(Current(sections[j]), name);
      if k < n { assert RecordsLast(Current(front[k]), name, v); }
    }
  }

  /** When every frame is on, a name has a value exactly if the innermost group recording it gives it that value. */
  lemma {:induction false} StackedIff(
    stack: seq<Frame>, sections: seq<seq<Directive>>, name: string, v: string)
    requires StackDescribes(stack, sections) && forall k | 0 <= k < |stack| :: stack[k].On()
    ensures name in StackedEqualities(stack) && StackedEqualities(stack)[name] == v <==> Constrains(sections, name, v)
    decreases |stack|
  {
    if stack != [] {
      var n := |stack| - 1;
      assert forall k | 0 <= k < n :: stack[..n][k] == stack[k] && sections[..n][k] == sections[k];
      StackedIff(stack[..n], sections[..n], name, v);
      MergeIff(StackedEqualities(stack[..n]), stack[n].equalities, name, v);
      ConstrainsSnoc(sections, name, v);
      assert stack[n].equalities == Recorded(Current(sections[n]));
    }
  }

  /** The constraints say what the open groups say. */
  ghost predicate ConstraintsOf(reqs: map<string, string>, sections: seq<seq<Directive>>)
  {
    forall name, v :: name in reqs && reqs[name] == v <==> Constrains(sections, name, v)
  }

  /** The key is tested at `i`, by the condition of a group that may be taken. */
  ghost predicate CollectedAt(ds: seq<Directive>, i: nat, p: (map<string, string>, string))
  {
    && i < |ds| && (ds[i].If? || ds[i].Elif?) && p.1 in ds[i].cond.keys
    && Sections(ds[..i + 1]) != [] && AllMayBeTaken(Sections(ds[..i + 1]))
    && ConstraintsOf(p.0, Sections(ds[..i + 1]))
  }

  lemma {:induction false} KeyedIff(reqs: map<string, string>, keys: seq<string>, p: (map<string, string>, string))
    ensures p in Keyed(reqs, keys) <==> p.0 == reqs && p.1 in keys
  {
    if p.0 == reqs && p.1 in keys {
      var k :| 0 <= k < |keys| && keys[k] == p.1;
      assert Keyed(reqs, keys)[k] == p;
    }
  }

  lemma {:induction false} SameConstraints(
    reqs: map<string, string>, reqs': map<string, string>, sections: seq<seq<Directive>>)
    requires ConstraintsOf(reqs, sections) && ConstraintsOf(reqs', sections)
    ensures reqs == reqs'
  {
    forall name | name in reqs ensures name in reqs' && reqs'[name] == reqs[name] {
      assert Constrains(sections, name, reqs[name]);
    }
    forall name | name in reqs' ensures name in reqs && reqs[name] == reqs'[name] {
      assert Constrains(sections, name, reqs'[name]);
    }
  }

  lemma {:induction false} KeysAtIff(ds: seq<Directive>, i: nat, p: (map<string, string>, string))
    requires i < |ds|
    ensures p in KeysAt(Final(ds[..i + 1], []), ds[i]) <==> CollectedAt(ds, i, p)
  {
    var stack, sections := Final(ds[..i + 1], []), Sections(ds[..i + 1]);
    FinalDescribes(ds[..i + 1]);
    TopOnIff(stack, sections);
    if TopOn(stack) {
      forall name, v ensures name in StackedEqualities(stack) && StackedEqualities(stack)[name] == v <==>
                             Constrains(sections, name, v) {
        StackedIff(stack, sections, name, v);
      }
      assert ConstraintsOf(StackedEqualities(stack), sections);
      if ConstraintsOf(p.0, sections) { SameConstraints(p.0, StackedEqualities(stack), sections); }
    }
    KeyedIff(StackedEqualities(stack), if ds[i].If? || ds[i].Elif? then ds[i].cond.keys else [], p);
  }

  lemma {:induction false} TilingKeysAt(ds: seq<Directive>, stack: seq<Frame>, p: (map<string, string>, string))
    ensures p in TilingKeys(ds, stack) <==>
            exists i :: 0 <= i < |ds| && p in KeysAt(Final(ds[..i + 1], stack), ds[i])
    decreases ds
  {
    if ds != [] {
      var next := Step(stack, ds[0]);
      TilingKeysAt(ds[1..], next, p);
      FirstStep(ds, stack);
      forall i | 0 < i < |ds| ensures Final(ds[..i + 1], stack) == Final(ds[1..][..i], next) &&
          ds[i] == ds[1..][i - 1] {
        assert ds[..i + 1][0] == ds[0] && ds[..i + 1][1..] == ds[1..][..i];
      }
      if p in TilingKeys(ds[1..], next) {
        var j :| 0 <= j < |ds[1..]| && p in KeysAt(Final(ds[1..][..j + 1], next), ds[1..][j]);
        assert p in KeysAt(Final(ds[..j + 1 + 1], stack), ds[j + 1]);
      }
      if i :| 0 <= i < |ds| && p in KeysAt(Final(ds[..i + 1], stack), ds[i]) {
        if i > 0 { assert p in KeysAt(Final(ds[1..][..i - 1 + 1], next), ds[1..][i - 1]); }
      }
    }
  }

  lemma {:induction false} FirstStep(ds: seq<Directive>, stack: seq<Frame>)
    requires ds != []
    ensures Final(ds[..1], stack) == Step(stack, ds[0])
  {
    assert ds[..1] == [ds[0]];
    RunOne(ds[0], stack);
  }

  /** On any directives: a key is collected with some constraints if and only if the condition of a group that may be
      taken, as may all around it, tests it, and a name has a value in the constraints exactly when the innermost group
      around that records the name, the tested one included, records it last with that value. */
  lemma {:induction false} CollectedIff(ds: seq<Directive>, p: (map<string, string>, string))
    ensures p in TilingKeys(ds, []) <==> exists i: nat :: CollectedAt(ds, i, p)
  {
    TilingKeysAt(ds, [], p);
    if i :| 0 <= i < |ds| && p in KeysAt(Final(ds[..i + 1], []), ds[i]) { KeysAtIff(ds, i, p); }
    if i: nat :| CollectedAt(ds, i, p) { KeysAtIff(ds, i, p); }
  }
}
