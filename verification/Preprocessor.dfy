/** The three-valued conditional stack of `kernel_gates.py`.

    A condition carries what `try_eval_pp` makes of it: true, false, or unknown. */
module Preprocessor {
  import opened Wrappers
  import opened Sequences

  /** A controlling condition; `id` is what a truth assignment speaks of. `equalities` are the
      macro tests read off its text, and `keys` the tiling keys its text compares against. */
  datatype Cond = Cond(id: nat, ev: Option<bool>, equalities: seq<(string, string)>, keys: seq<string>)

  datatype Directive =
    | Include(file: string)
    | If(cond: Cond)
    | Ifdef(cond: Cond)
    | Ifndef(cond: Cond)
    | Elif(cond: Cond)
    | Else
    | Endif

  datatype Frame = Frame(parentOn: bool, branchOn: bool, anyTaken: bool, anyUnknown: bool,
                         equalities: seq<(string, string)>)
  {
    predicate On() { parentOn && branchOn }
  }

  // ----- one directive -----

  predicate TopOn(stack: seq<Frame>)
  {
    |stack| > 0 ==> stack[|stack| - 1].On()
  }

  function Pushed(parent: bool, ev: Option<bool>, eqs: seq<(string, string)>): Frame
  {
    if !parent then Frame(false, false, true, false, [])
    else match ev
      case Some(true) => Frame(true, true, true, false, eqs)
      case Some(false) => Frame(true, false, false, false, [])
      case None => Frame(true, true, false, true, eqs)
  }

  function AfterElif(f: Frame, ev: Option<bool>, eqs: seq<(string, string)>): Frame
  {
    if !f.parentOn || (f.anyTaken && !f.anyUnknown) then f.(branchOn := false, equalities := [])
    else match ev
      case Some(true) => f.(branchOn := true, anyTaken := true, anyUnknown := false, equalities := eqs)
      case Some(false) => f.(branchOn := f.anyUnknown, equalities := if f.anyUnknown then eqs else [])
      case None => f.(branchOn := true, anyUnknown := true, equalities := eqs)
  }

  function AfterElse(f: Frame): Frame
  {
    if !f.parentOn || (f.anyTaken && !f.anyUnknown) then f.(branchOn := false, equalities := [])
    else f.(branchOn := true, equalities := [])
  }

  /** The equalities a conditional records: only `#if` and `#elif` text is searched for them. */
  function Recorded(d: Directive): seq<(string, string)>
  {
    if d.If? || d.Elif? then d.cond.equalities else []
  }

  function Top(stack: seq<Frame>, f: Frame): seq<Frame>
    requires stack != []
  {
    stack[..|stack| - 1] + [f]
  }

  /** The stack after a directive. */
  function Step(stack: seq<Frame>, d: Directive): seq<Frame>
  {
    match d
    case Include(_) => stack
    case If(c) => stack + [Pushed(TopOn(stack), c.ev, c.equalities)]
    case Ifdef(c) => stack + [Pushed(TopOn(stack), c.ev, [])]
    case Ifndef(c) => stack + [Pushed(TopOn(stack), c.ev, [])]
    case Elif(c) => if stack == [] then stack else Top(stack, AfterElif(stack[|stack| - 1], c.ev, c.equalities))
    case Else => if stack == [] then stack else Top(stack, AfterElse(stack[|stack| - 1]))
    case Endif => if stack == [] then stack else stack[..|stack| - 1]
  }

  /** Whether the directive is reported, and as taken or not; a stray `#endif` is, a stray `#elif` or `#else` is not. */
  function Report(stack: seq<Frame>, d: Directive): Option<bool>
  {
    match d
    case Include(_) => Some(TopOn(stack))
    case Elif(_) | Else => if stack == [] then None else Some(TopOn(Step(stack, d)))
    case _ => Some(TopOn(Step(stack, d)))
  }

  function Final(ds: seq<Directive>, stack: seq<Frame>): seq<Frame>
  {
    if ds == [] then stack else Final(ds[1..], Step(stack, ds[0]))
  }

  function Reports(ds: seq<Directive>, stack: seq<Frame>): (r: seq<Option<bool>>)
    ensures |r| == |ds|
  {
    if ds == [] then [] else [Report(stack, ds[0])] + Reports(ds[1..], Step(stack, ds[0]))
  }

  lemma {:induction false} RunJoin(ds: seq<Directive>, ds': seq<Directive>, stack: seq<Frame>)
    ensures Final(ds + ds', stack) == Final(ds', Final(ds, stack))
    ensures Reports(ds + ds', stack) == Reports(ds, stack) + Reports(ds', Final(ds, stack))
    decreases ds
  {
    if ds == [] {
      assert ds + ds' == ds';
    } else {
      RunJoin(ds[1..], ds', Step(stack, ds[0]));
      assert (ds + ds')[0] == ds[0] && (ds + ds')[1..] == ds[1..] + ds';
      var next := Step(stack, ds[0]);
      Regroup([Report(stack, ds[0])], Reports(ds[1..], next), Reports(ds', Final(ds[1..], next)));
    }
  }

  lemma {:induction false} RunOne(d: Directive, stack: seq<Frame>)
    ensures Final([d], stack) == Step(stack, d) && Reports([d], stack) == [Report(stack, d)]
  {
    assert [d][1..] == [];
  }

  // ----- the invariant, on any directive sequence -----

  ghost predicate StackInv(stack: seq<Frame>)
  {
    forall k | 0 <= k < |stack| ::
      !(stack[k].anyTaken && stack[k].anyUnknown) && stack[k].parentOn == TopOn(stack[..k])
  }

  lemma {:induction false} StepKeepsInv(stack: seq<Frame>, d: Directive)
    requires StackInv(stack)
    ensures StackInv(Step(stack, d))
  {
    var next := Step(stack, d);
    forall k | 0 <= k < |next|
      ensures !(next[k].anyTaken && next[k].anyUnknown) && next[k].parentOn == TopOn(next[..k])
    {
      assert next[..k] == stack[..k];
      if k == |stack| {
        assert stack[..k] == stack;
      } else {
        assert !(stack[k].anyTaken && stack[k].anyUnknown) && stack[k].parentOn == TopOn(stack[..k]);
      }
    }
  }

  /** Whatever directives are scanned, no frame is both taken and unknown, and each `parent_on` is the
      state of the frame below. */
  lemma {:induction false} ScanKeepsInv(ds: seq<Directive>, stack: seq<Frame>)
    requires StackInv(stack)
    ensures StackInv(Final(ds, stack))
    decreases ds
  {
    if ds != [] {
      StepKeepsInv(stack, ds[0]);
      ScanKeepsInv(ds[1..], Step(stack, ds[0]));
    }
  }

  // ----- conditional inclusion, by structure -----

  datatype Opening = OpenIf | OpenIfdef | OpenIfndef

  /** A well-formed text, as section 15.2 of ISO/IEC 14882:2020 groups it. */
  datatype Item = Inc(file: string) | Section(opening: Opening, cond: Cond, body: seq<Item>, rest: Groups)

  datatype Groups =
    | End
    | ElifGroup(cond: Cond, body: seq<Item>, rest: Groups)
    | ElseGroup(body: seq<Item>)

  function OpeningDirective(o: Opening, c: Cond): Directive
  {
    match o
    case OpenIf => If(c)
    case OpenIfdef => Ifdef(c)
    case OpenIfndef => Ifndef(c)
  }

  /** The directives of a text in source order. */
  function Directives(items: seq<Item>): seq<Directive>
    decreases items, 0
  {
    if items == [] then [] else ItemDirectives(items[0]) + Directives(items[1..])
  }

  function ItemDirectives(item: Item): seq<Directive>
    decreases item, 0
  {
    match item
    case Inc(f) => [Include(f)]
    case Section(o, c, b, r) => [OpeningDirective(o, c)] + Directives(b) + GroupsDirectives(r)
  }

  function GroupsDirectives(g: Groups): seq<Directive>
    decreases g, 0
  {
    match g
    case End => [Endif]
    case ElifGroup(c, b, r) => [Elif(c)] + Directives(b) + GroupsDirectives(r)
    case ElseGroup(b) => [Else] + Directives(b) + [Endif]
  }

  /** For each directive, whether the preprocessor reaches the include, enters the group, or (at the
      end of a section) is processing text. The first group whose condition is true is processed. */
  function Real(items: seq<Item>, truth: set<nat>, live: bool): (r: seq<bool>)
    ensures |r| == |Directives(items)|
    decreases items, 0
  {
    if items == [] then [] else RealItem(items[0], truth, live) + Real(items[1..], truth, live)
  }

  function RealItem(item: Item, truth: set<nat>, live: bool): (r: seq<bool>)
    ensures |r| == |ItemDirectives(item)|
    decreases item, 0
  {
    match item
    case Inc(_) => [live]
    case Section(_, c, b, r) =>
      var on := live && c.id in truth;
      [on] + Real(b, truth, on) + RealGroups(r, truth, live, c.id in truth)
  }

  function RealGroups(g: Groups, truth: set<nat>, live: bool, taken: bool): (r: seq<bool>)
    ensures |r| == |GroupsDirectives(g)|
    decreases g, 0
  {
    match g
    case End => [live]
    case ElifGroup(c, b, r) =>
      var on := live && !taken && c.id in truth;
      [on] + Real(b, truth, on) + RealGroups(r, truth, live, taken || c.id in truth)
    case ElseGroup(b) =>
      var on := live && !taken;
      [on] + Real(b, truth, on) + [live]
  }

  /** What the scanner knows of a condition is right, and with `total` it knows something. */
  predicate Known(c: Cond, truth: set<nat>, total: bool)
  {
    (c.ev.Some? ==> c.ev.value == (c.id in truth)) && (total ==> c.ev.Some?)
  }

  /** The same for every condition the preprocessor evaluates. */
  ghost predicate KnownItems(items: seq<Item>, truth: set<nat>, live: bool, total: bool)
    decreases items, 0
  {
    items == [] || (KnownItem(items[0], truth, live, total) && KnownItems(items[1..], truth, live, total))
  }

  ghost predicate KnownItem(item: Item, truth: set<nat>, live: bool, total: bool)
    decreases item, 0
  {
    match item
    case Inc(_) => true
    case Section(_, c, b, r) =>
      && (live ==> Known(c, truth, total))
      && KnownItems(b, truth, live && c.id in truth, total)
      && KnownGroups(r, truth, live, c.id in truth, total)
  }

  ghost predicate KnownGroups(g: Groups, truth: set<nat>, live: bool, taken: bool, total: bool)
    decreases g, 0
  {
    match g
    case End => true
    case ElifGroup(c, b, r) =>
      && (live && !taken ==> Known(c, truth, total))
      && KnownItems(b, truth, live && !taken && c.id in truth, total)
      && KnownGroups(r, truth, live, taken || c.id in truth, total)
    case ElseGroup(b) => KnownItems(b, truth, live && !taken, total)
  }

  // ----- the scanner against the preprocessor -----

  /** Every directive is reported; what is really on is reported as taken, and with `total` nothing else is. */
  ghost predicate Covers(reports: seq<Option<bool>>, actual: seq<bool>, total: bool)
  {
    && |reports| == |actual|
    && forall k | 0 <= k < |actual| ::
         reports[k].Some? && (actual[k] ==> reports[k].value) && (total ==> reports[k].value == actual[k])
  }

  /** How a frame relates to the groups of its section processed so far. */
  ghost predicate Tracks(f: Frame, parent: bool, live: bool, taken: bool, total: bool)
  {
    && f.parentOn == parent
    && (live ==> parent) && (total ==> live == parent)
    && (live && f.anyTaken ==> taken)
    && (total && live ==> f.anyTaken == taken && !f.anyUnknown)
  }

  /** Scanning `ds` leads from `stack` to `stack'`, with reports that cover `actual`. */
  ghost predicate Runs(ds: seq<Directive>, stack: seq<Frame>, stack': seq<Frame>, actual: seq<bool>, total: bool)
  {
    Final(ds, stack) == stack' && Covers(Reports(ds, stack), actual, total)
  }

  lemma {:induction false} RunsOne(d: Directive, stack: seq<Frame>, on: bool, total: bool)
    requires var r := Report(stack, d); r.Some? && (on ==> r.value) && (total ==> r.value == on)
    ensures Runs([d], stack, Step(stack, d), [on], total)
  {
    RunOne(d, stack);
  }

  lemma {:induction false} RunsThen(
    ds: seq<Directive>, ds': seq<Directive>, s: seq<Frame>, s': seq<Frame>, s'': seq<Frame>, actual: seq<bool>,
    actual': seq<bool>, total: bool)
    requires Runs(ds, s, s', actual, total) && Runs(ds', s', s'', actual', total)
    ensures Runs(ds + ds', s, s'', actual + actual', total)
  {
    RunJoin(ds, ds', s);
  }

  /** A section part: its directive, its body, and what comes behind. */
  lemma {:induction false} RunsPart(d: Directive, body: seq<Directive>, rest: seq<Directive>,
                 s: seq<Frame>, s': seq<Frame>, s'': seq<Frame>,
                 on: bool, inner: seq<bool>, behind: seq<bool>, total: bool)
    requires Runs([d], s, s', [on], total) && Runs(body, s', s', inner, total) && Runs(rest, s', s'', behind, total)
    ensures Runs([d] + body + rest, s, s'', [on] + inner + behind, total)
  {
    RunsThen([d], body, s, s', s', [on], inner, total);
    RunsThen([d] + body, rest, s, s', s'', [on] + inner, behind, total);
  }

  lemma {:induction false} ItemsCovered(items: seq<Item>, stack: seq<Frame>, truth: set<nat>, live: bool, total: bool)
    requires live ==> TopOn(stack)
    requires total ==> live == TopOn(stack)
    requires KnownItems(items, truth, live, total)
    ensures Runs(Directives(items), stack, stack, Real(items, truth, live), total)
    decreases items, 0
  {
    if items != [] {
      ItemCovered(items[0], stack, truth, live, total);
      ItemsCovered(items[1..], stack, truth, live, total);
      RunsThen(ItemDirectives(items[0]), Directives(items[1..]), stack, stack, stack,
               RealItem(items[0], truth, live), Real(items[1..], truth, live), total);
    }
  }

  lemma {:induction false} ItemCovered(item: Item, stack: seq<Frame>, truth: set<nat>, live: bool, total: bool)
    requires live ==> TopOn(stack)
    requires total ==> live == TopOn(stack)
    requires KnownItem(item, truth, live, total)
    ensures Runs(ItemDirectives(item), stack, stack, RealItem(item, truth, live), total)
    decreases item, 0
  {
    match item
    case Inc(f) => RunsOne(Include(f), stack, live, total);
    case Section(o, c, b, r) =>
      var d := OpeningDirective(o, c);
      var f := Pushed(TopOn(stack), c.ev, Recorded(d));
      var on := live && c.id in truth;
      assert Step(stack, d) == stack + [f];
      RunsOne(d, stack, on, total);
      ItemsCovered(b, stack + [f], truth, on, total);
      GroupsCovered(r, stack, f, truth, live, c.id in truth, total);
      RunsPart(d, Directives(b), GroupsDirectives(r), stack, stack + [f], stack,
               on, Real(b, truth, on), RealGroups(r, truth, live, c.id in truth), total);
  }

  /** What an `#elif` or `#else` does to a frame that tracks its section. */
  lemma {:induction false} ElifTracks(
    f: Frame, c: Cond, truth: set<nat>, parent: bool, live: bool, taken: bool, total: bool)
    requires Tracks(f, parent, live, taken, total) && (live && !taken ==> Known(c, truth, total))
    ensures var f', on := AfterElif(f, c.ev, c.equalities), live && !taken && c.id in truth;
            && Tracks(f', parent, live, taken || c.id in truth, total)
            && (on ==> f'.On()) && (total ==> f'.On() == on)
  {
  }

  lemma {:induction false} ElseTracks(f: Frame, parent: bool, live: bool, taken: bool, total: bool)
    requires Tracks(f, parent, live, taken, total)
    ensures var f', on := AfterElse(f), live && !taken; (on ==> f'.On()) && (total ==> f'.On() == on)
  {
  }

  lemma {:induction false} TopStep(stack: seq<Frame>, f: Frame, d: Directive)
    requires d.Elif? || d.Else? || d.Endif?
    ensures d.Elif? ==> Step(stack + [f], d) == stack + [AfterElif(f, d.cond.ev, d.cond.equalities)]
    ensures d.Else? ==> Step(stack + [f], d) == stack + [AfterElse(f)]
    ensures d.Endif? ==> Step(stack + [f], d) == stack
  {
    assert (stack + [f])[..|stack|] == stack;
  }

  lemma {:induction false} GroupsCovered(
    g: Groups, stack: seq<Frame>, f: Frame, truth: set<nat>, live: bool, taken: bool, total: bool)
    requires Tracks(f, TopOn(stack), live, taken, total)
    requires KnownGroups(g, truth, live, taken, total)
    ensures Runs(GroupsDirectives(g), stack + [f], stack, RealGroups(g, truth, live, taken), total)
    decreases g, 1
  {
    match g
    case End =>
      TopStep(stack, f, Endif);
      RunsOne(Endif, stack + [f], live, total);
    case ElifGroup(_, _, _) => ElifCovered(g, stack, f, truth, live, taken, total);
    case ElseGroup(_) => ElseCovered(g, stack, f, truth, live, taken, total);
  }

  lemma {:induction false} ElifCovered(
    g: Groups, stack: seq<Frame>, f: Frame, truth: set<nat>, live: bool, taken: bool, total: bool)
    requires g.ElifGroup? && Tracks(f, TopOn(stack), live, taken, total)
    requires KnownGroups(g, truth, live, taken, total)
    ensures Runs(GroupsDirectives(g), stack + [f], stack, RealGroups(g, truth, live, taken), total)
    decreases g, 0
  {
    var ElifGroup(c, b, r) := g;
    var f' := AfterElif(f, c.ev, c.equalities);
    var on := live && !taken && c.id in truth;
    TopStep(stack, f, Elif(c));
    ElifTracks(f, c, truth, TopOn(stack), live, taken, total);
    RunsOne(Elif(c), stack + [f], on, total);
    TopOfPushed(stack, f');
    ItemsCovered(b, stack + [f'], truth, on, total);
    GroupsCovered(r, stack, f', truth, live, taken || c.id in truth, total);
    RunsPart(Elif(c), Directives(b), GroupsDirectives(r), stack + [f], stack + [f'], stack,
             on, Real(b, truth, on), RealGroups(r, truth, live, taken || c.id in truth), total);
  }

  lemma {:induction false} ElseCovered(
    g: Groups, stack: seq<Frame>, f: Frame, truth: set<nat>, live: bool, taken: bool, total: bool)
    requires g.ElseGroup? && Tracks(f, TopOn(stack), live, taken, total)
    requires KnownGroups(g, truth, live, taken, total)
    ensures Runs(GroupsDirectives(g), stack + [f], stack, RealGroups(g, truth, live, taken), total)
    decreases g, 0
  {
    var ElseGroup(b) := g;
    var f' := AfterElse(f);
    var on := live && !taken;
    TopStep(stack, f, Else);
    ElseTracks(f, TopOn(stack), live, taken, total);
    RunsOne(Else, stack + [f], on, total);
    TopOfPushed(stack, f');
    ItemsCovered(b, stack + [f'], truth, on, total);
    TopStep(stack, f', Endif);
    RunsOne(Endif, stack + [f'], live, total);
    RunsPart(Else, Directives(b), [Endif], stack + [f], stack + [f'], stack,
             on, Real(b, truth, on), [live], total);
  }

  lemma {:induction false} TopOfPushed(stack: seq<Frame>, f: Frame)
    ensures TopOn(stack + [f]) == f.On()
  {
  }

  /** Whatever the unknown conditions turn out to be, every include the preprocessor reaches and every group it
      enters is reported as taken. */
  lemma {:induction false} ScanIsSound(items: seq<Item>, truth: set<nat>)
    requires KnownItems(items, truth, true, false)
    ensures var reports := Reports(Directives(items), []);
            forall k | 0 <= k < |reports| && Real(items, truth, true)[k] :: reports[k] == Some(true)
  {
    ItemsCovered(items, [], truth, true, false);
  }

  /** If every condition the preprocessor evaluates is known, each report equals what the preprocessor does. */
  lemma {:induction false} ScanIsExact(items: seq<Item>, truth: set<nat>)
    requires KnownItems(items, truth, true, true)
    ensures var reports := Reports(Directives(items), []);
            forall k | 0 <= k < |reports| :: reports[k] == Some(Real(items, truth, true)[k])
  {
    ItemsCovered(items, [], truth, true, true);
  }

  // ----- the tiling-key scanner -----

  function Merge(m: map<string, string>, eqs: seq<(string, string)>): map<string, string>
    decreases eqs
  {
    if eqs == [] then m else Merge(m[eqs[0].0 := eqs[0].1], eqs[1..])
  }

  /** The equalities of the frames that are on, later ones replacing earlier ones. */
  function StackedEqualities(stack: seq<Frame>): map<string, string>
  {
    if stack == [] then map[]
    else
      var below := StackedEqualities(stack[..|stack| - 1]);
      if stack[|stack| - 1].On() then Merge(below, stack[|stack| - 1].equalities) else below
  }

  function Keyed(reqs: map<string, string>, keys: seq<string>): seq<(map<string, string>, string)>
  {
    seq(|keys|, k requires 0 <= k < |keys| => (reqs, keys[k]))
  }

  /** What a directive contributes once the stack is updated. */
  function KeysAt(stack: seq<Frame>, d: Directive): seq<(map<string, string>, string)>
  {
    if (d.If? || d.Elif?) && stack != [] && TopOn(stack) then Keyed(StackedEqualities(stack), d.cond.keys) else []
  }

  function TilingKeys(ds: seq<Directive>, stack: seq<Frame>): seq<(map<string, string>, string)>
  {
    if ds == [] then []
    else KeysAt(Step(stack, ds[0]), ds[0]) + TilingKeys(ds[1..], Step(stack, ds[0]))
  }

  /** What the include scanner's reports say the key scanner should collect: the keys of every `#if` and
      `#elif` reported as taken. */
  function KeysOfReports(
    ds: seq<Directive>, stack: seq<Frame>, reports: seq<Option<bool>>): seq<(map<string, string>, string)>
    requires |reports| == |ds|
  {
    if ds == [] then []
    else
      var next := Step(stack, ds[0]);
      (if (ds[0].If? || ds[0].Elif?) && reports[0] == Some(true)
       then Keyed(StackedEqualities(next), ds[0].cond.keys) else [])
      + KeysOfReports(ds[1..], next, reports[1..])
  }

  /** The two scanners follow the same trajectory, on any directive sequence. */
  lemma {:induction false} ScannersAgree(ds: seq<Directive>, stack: seq<Frame>)
    ensures TilingKeys(ds, stack) == KeysOfReports(ds, stack, Reports(ds, stack))
    decreases ds
  {
    if ds != [] {
      ScannersAgree(ds[1..], Step(stack, ds[0]));
      assert Reports(ds, stack)[1..] == Reports(ds[1..], Step(stack, ds[0]));
    }
  }

  lemma {:induction false} KeyOfReport(
    ds: seq<Directive>, stack: seq<Frame>, reports: seq<Option<bool>>, k: nat, key: string)
    requires |reports| == |ds| && k < |ds| && (ds[k].If? || ds[k].Elif?) && reports[k] == Some(true) &&
            key in ds[k].cond.keys
    ensures exists p :: p in KeysOfReports(ds, stack, reports) && p.1 == key
    decreases ds
  {
    var next := Step(stack, ds[0]);
    var tail := KeysOfReports(ds[1..], next, reports[1..]);
    if k == 0 {
      var keys := ds[0].cond.keys;
      var j :| 0 <= j < |keys| && keys[j] == key;
      var p := Keyed(StackedEqualities(next), keys)[j];
      assert p in Keyed(StackedEqualities(next), keys);
      assert p in KeysOfReports(ds, stack, reports) && p.1 == key;
    } else {
      KeyOfReport(ds[1..], next, reports[1..], k - 1, key);
      var p :| p in tail && p.1 == key;
      assert p in KeysOfReports(ds, stack, reports);
    }
  }

  /** A tiling key compared in the condition of a group the preprocessor enters is collected. */
  lemma {:induction false} EnteredKeysAreCollected(items: seq<Item>, truth: set<nat>, k: nat, key: string)
    requires KnownItems(items, truth, true, false)
    requires k < |Directives(items)| && Real(items, truth, true)[k]
    requires var d := Directives(items)[k]; (d.If? || d.Elif?) && key in d.cond.keys
    ensures exists p :: p in TilingKeys(Directives(items), []) && p.1 == key
  {
    var ds := Directives(items);
    ScanIsSound(items, truth);
    ScannersAgree(ds, []);
    KeyOfReport(ds, [], Reports(ds, []), k, key);
  }

  // ----- the mutable frames and the scanning loops -----

  class FrameCell {
    var parentOn: bool
    var branchOn: bool
    var anyTaken: bool
    var anyUnknown: bool
    var equalities: seq<(string, string)>

    constructor (f: Frame)
      ensures View() == f
    {
      parentOn, branchOn, anyTaken, anyUnknown := f.parentOn, f.branchOn, f.anyTaken, f.anyUnknown;
      equalities := f.equalities;
    }

    function View(): Frame
      reads this
    {
      Frame(parentOn, branchOn, anyTaken, anyUnknown, equalities)
    }

    method ApplyElif(ev: Option<bool>, eqs: seq<(string, string)>)
      modifies this
      ensures View() == AfterElif(old(View()), ev, eqs)
    {
      if !parentOn {
        branchOn, equalities := false, [];
        return;
      }
      if anyTaken && !anyUnknown {
        branchOn, equalities := false, [];
        return;
      }
      match ev
      case Some(true) =>
        branchOn, anyTaken, anyUnknown, equalities := true, true, false, eqs;
      case Some(false) =>
        branchOn := anyUnknown;
        equalities := if branchOn then eqs else [];
      case None =>
        branchOn, anyUnknown, equalities := true, true, eqs;
    }

    method ApplyElse()
      modifies this
      ensures View() == AfterElse(old(View()))
    {
      if !parentOn {
        branchOn, equalities := false, [];
        return;
      }
      if anyTaken && !anyUnknown {
        branchOn, equalities := false, [];
        return;
      }
      branchOn, equalities := true, [];
    }
  }

  function Views(cells: seq<FrameCell>): seq<Frame>
    reads cells
  {
    seq(|cells|, k requires 0 <= k < |cells| reads cells => cells[k].View())
  }

  ghost predicate Separate(cells: seq<FrameCell>)
  {
    forall j, k | 0 <= j < k < |cells| :: cells[j] != cells[k]
  }

  /** The part of both scanners that keeps the stack. */
  method Advance(cells: seq<FrameCell>, d: Directive) returns (next: seq<FrameCell>)
    requires Separate(cells)
    modifies cells
    ensures Separate(next) && Views(next) == Step(old(Views(cells)), d)
    ensures forall c | c in next :: c in cells || fresh(c)
  {
    var parent := if cells == [] then true else cells[|cells| - 1].View().On();
    ghost var before := Views(cells);
    assert parent == TopOn(before);
    next := cells;
    match d
    case Include(_) =>
    case If(c) =>
      var cell := new FrameCell(Pushed(parent, c.ev, c.equalities));
      next := cells + [cell];
    case Ifdef(c) =>
      var cell := new FrameCell(Pushed(parent, c.ev, []));
      next := cells + [cell];
    case Ifndef(c) =>
      var cell := new FrameCell(Pushed(parent, c.ev, []));
      next := cells + [cell];
    case Elif(c) =>
      if cells != [] { cells[|cells| - 1].ApplyElif(c.ev, c.equalities); }
    case Else =>
      if cells != [] { cells[|cells| - 1].ApplyElse(); }
    case Endif =>
      if cells != [] { next := cells[..|cells| - 1]; }
  }

  lemma {:induction false} ReportsFrom(ds: seq<Directive>, i: nat, stack: seq<Frame>, out: seq<Option<bool>>)
    requires i < |ds|
    ensures out + Reports(ds[i..], stack) == (out + [Report(stack, ds[i])]) + Reports(ds[i + 1..], Step(stack, ds[i]))
  {
    assert ds[i..][0] == ds[i] && ds[i..][1..] == ds[i + 1..];
    Regroup(out, [Report(stack, ds[i])], Reports(ds[i + 1..], Step(stack, ds[i])));
  }

  method IterDirectives(ds: seq<Directive>) returns (out: seq<Option<bool>>)
    ensures out == Reports(ds, [])
  {
    var cells: seq<FrameCell> := [];
    out := [];
    for i := 0 to |ds|
      invariant Separate(cells) && fresh(set c | c in cells)
      invariant Reports(ds, []) == out + Reports(ds[i..], Views(cells))
    {
      ReportsFrom(ds, i, Views(cells), out);
      var reported;
      cells, reported := ReportNext(cells, ds[i]);
      out := out + [reported];
    }
  }

  method ReportNext(cells: seq<FrameCell>, d: Directive) returns (next: seq<FrameCell>, reported: Option<bool>)
    requires Separate(cells)
    modifies cells
    ensures Separate(next) && Views(next) == Step(old(Views(cells)), d)
    ensures forall c | c in next :: c in cells || fresh(c)
    ensures reported == Report(old(Views(cells)), d)
  {
    var had := cells != [];
    var taking := TakingOf(cells);
    next := Advance(cells, d);
    var on := TakingOf(next);
    reported :=
      if d.Include? then Some(taking)
      else if (d.Elif? || d.Else?) && !had then None
      else Some(on);
  }

  method TakingOf(cells: seq<FrameCell>) returns (on: bool)
    ensures on == TopOn(Views(cells))
  {
    on := if cells == [] then true else cells[|cells| - 1].View().On();
  }

  method StackedEqualitiesOf(cells: seq<FrameCell>) returns (merged: map<string, string>)
    ensures merged == StackedEqualities(Views(cells))
  {
    merged := map[];
    ghost var vs := Views(cells);
    for k := 0 to |cells|
      invariant vs == Views(cells)
      invariant merged == StackedEqualities(vs[..k])
    {
      assert vs[..k + 1][..k] == vs[..k] && vs[..k + 1][k] == cells[k].View();
      if cells[k].View().On() {
        var eqs := cells[k].equalities;
        ghost var start := merged;
        for j := 0 to |eqs|
          invariant Merge(start, eqs) == Merge(merged, eqs[j..])
        {
          assert eqs[j..][0] == eqs[j] && eqs[j..][1..] == eqs[j + 1..];
          merged := merged[eqs[j].0 := eqs[j].1];
        }
      }
    }
    assert vs[..|cells|] == vs;
  }

  /** The contribution of one directive to the key list. */
  method KeysOf(cells: seq<FrameCell>, d: Directive) returns (out: seq<(map<string, string>, string)>)
    ensures out == KeysAt(Views(cells), d)
  {
    out := [];
    ghost var vs := Views(cells);
    assert |vs| == |cells| && (vs != [] ==> vs[|vs| - 1] == cells[|cells| - 1].View());
    if d.Include? || d.Endif? { return; }
    if cells == [] || !cells[|cells| - 1].View().On() { return; }
    if !(d.If? || d.Elif?) { return; }
    var reqs := StackedEqualitiesOf(cells);
    for j := 0 to |d.cond.keys|
      invariant out == Keyed(reqs, d.cond.keys)[..j]
    {
      out := out + [(reqs, d.cond.keys[j])];
    }
  }

  lemma {:induction false} KeysFrom(
    ds: seq<Directive>, i: nat, stack: seq<Frame>, out: seq<(map<string, string>, string)>)
    requires i < |ds|
    ensures var next := Step(stack, ds[i]);
            out + TilingKeys(ds[i..], stack) == (out + KeysAt(next, ds[i])) + TilingKeys(ds[i + 1..], next)
  {
    assert ds[i..][0] == ds[i] && ds[i..][1..] == ds[i + 1..];
    Regroup(out, KeysAt(Step(stack, ds[i]), ds[i]), TilingKeys(ds[i + 1..], Step(stack, ds[i])));
  }

  method TilingKeysWithConstraints(ds: seq<Directive>) returns (out: seq<(map<string, string>, string)>)
    ensures out == TilingKeys(ds, [])
  {
    var cells: seq<FrameCell> := [];
    out := [];
    for i := 0 to |ds|
      invariant Separate(cells) && fresh(set c | c in cells)
      invariant TilingKeys(ds, []) == out + TilingKeys(ds[i..], Views(cells))
    {
      KeysFrom(ds, i, Views(cells), out);
      cells := Advance(cells, ds[i]);
      var more := KeysOf(cells, ds[i]);
      out := out + more;
    }
  }
}
