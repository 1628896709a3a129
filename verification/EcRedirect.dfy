/** Command lines that are too long: ec.c puts the arguments into a file, always the same one, and has it removed after
    the program. What the programs find there when they are run. */
module EcRedirect {
  import opened Bytes
  import opened CommandFile
  import opened Driver
  import opened EcItems
  import opened EcRuns
  import opened EcPrograms

  // ---------------------------------------------------------------- the file, from the writing to the run

  /** Long command lines all go to the same file, which the last one leaves its arguments in. */
  lemma {:induction false} RedirectionShared(b: Build, xs: seq<Item>, i: nat, j: nat)
    requires i <= j < |xs| && LongItem(xs[i]) && LongItem(xs[j]) && forall k :: j < k < |xs| ==> !LongItem(xs[k])
    ensures b.Redirected(xs) == Some(Folded(xs[j].vec, 0)) && b.Line(xs[i].vec) == b.Line(xs[j].vec)
  {
    hide Folded, Spaced;
    if j < |xs| - 1 {
      RedirectionShared(b, xs[..|xs| - 1], i, j);
    }
  }

  predicate LongItem(x: Item) {
    x.Do? && Long(x.vec)
  }

  function Shared(b: Build): name {
    b.File(b.names.redname)
  }

  /** What is left in the file `f` after some of a run, if it held `had` at the start. */
  function OnDisk(had: Option<string>, f: name, es: seq<Event>): Option<string> {
    if es == [] then had
    else if es[|es| - 1] == Removed(f) then None
    else OnDisk(had, f, es[..|es| - 1])
  }

  lemma {:induction false} OnDiskExact(had: Option<string>, f: name, es: seq<Event>)
    ensures OnDisk(had, f, es) == if Removed(f) in es then None else had
  {
    if es != [] {
      OnDiskExact(had, f, es[..|es| - 1]);
      assert es == es[..|es| - 1] + [es[|es| - 1]];
    }
  }

  /** The program that is started by event `t` of a run reads the file as the arguments `vec`. */
  predicate Finds(b: Build, es: seq<Event>, t: nat, vec: seq<string>)
    requires t <= |es|
  {
    match OnDisk(b.Redirected(b.Items()), Shared(b), es[..t])
    case None => false
    case Some(text) => Unfolded(text) == Listed(vec)
  }

  predicate Plainly(vec: seq<string>) {
    forall i :: 0 <= i < |vec| ==> '\\' !in vec[i]
  }

  /** In any run a program finds its own long list of arguments exactly if the file has not been removed yet and its
      list is that of the last such program in the command file. */
  lemma RedirectionRight(b: Build, es: seq<Event>, t: nat, i: nat, j: nat)
    requires t <= |es| && i <= j < |b.Items()| && LongItem(b.Items()[i]) && LongItem(b.Items()[j])
    requires forall k :: j < k < |b.Items()| ==> !LongItem(b.Items()[k])
    requires Plainly(b.Items()[j].vec)
    ensures Finds(b, es, t, b.Items()[i].vec)
      <==> Removed(Shared(b)) !in es[..t] && Listed(b.Items()[i].vec) == Listed(b.Items()[j].vec)
  {
    var xs := b.Items();
    hide b.Items;
    RedirectionShared(b, xs, i, j);
    FoldedKeeps(xs[j].vec, 0);
    OnDiskExact(b.Redirected(xs), Shared(b), es[..t]);
    hide OnDisk, Folded, Unfolded, Listed;
  }

  // ---------------------------------------------------------------- when it has been removed

  /** The command line refers to the file. */
  predicate Redirects(b: Build, c: Command) {
    c.Exec? && c.tail == Ascii(" " + ("<" + b.names.redname))
  }

  /** A program that read its arguments from the file has succeeded. */
  ghost predicate Succeeded(b: Build, es: seq<Event>) {
    exists u :: 0 <= u < |es| && SucceedsIn(b, es[u])
  }

  predicate SucceedsIn(b: Build, e: Event) {
    e.Ran? && !e.failed && Redirects(b, e.cmd)
  }

  ghost predicate Settled(b: Build, es: seq<Event>) {
    Removed(Shared(b)) in es <==> Succeeded(b, es)
  }

  /** Whenever a program is started, the file is gone exactly if a program with redirected arguments has succeeded. */
  ghost predicate AllSettled(b: Build, es: seq<Event>) {
    Settled(b, es) && forall t :: 0 <= t < |es| && es[t].Ran? ==> Settled(b, es[..t])
  }

  lemma SettledSum(b: Build, x: seq<Event>, y: seq<Event>)
    requires Settled(b, x) && Settled(b, y)
    ensures Settled(b, x + y)
  {
    if Succeeded(b, x) {
      var u :| 0 <= u < |x| && SucceedsIn(b, x[u]);
      assert (x + y)[u] == x[u];
    }
    if Succeeded(b, y) {
      var u :| 0 <= u < |y| && SucceedsIn(b, y[u]);
      assert (x + y)[|x| + u] == y[u];
    }
  }

  lemma AllSettledSum(b: Build, x: seq<Event>, y: seq<Event>)
    requires AllSettled(b, x) && AllSettled(b, y)
    ensures AllSettled(b, x + y)
  {
    hide Settled;
    SettledSum(b, x, y);
    forall t | 0 <= t < |x + y| && (x + y)[t].Ran? ensures Settled(b, (x + y)[..t]) {
      if t < |x| {
        assert (x + y)[..t] == x[..t];
      } else {
        assert (x + y)[..t] == x + y[..t - |x|];
        SettledSum(b, x, y[..t - |x|]);
      }
    }
  }

  lemma NoneSettled(b: Build)
    ensures AllSettled(b, [])
  {
  }

  /** No command line that is short enough looks like a redirection. */
  predicate Straight(x: Item) {
    x.Do? ==> x.vec[0] != "" && x.vec[0][0] as int % 256 != 0x3C
  }

  lemma {:induction false} SpacedStart(vec: vector)
    ensures Spaced(vec)[0] == ' ' && |Spaced(vec)| > |vec[0]|
    ensures vec[0] != "" ==> Spaced(vec)[1] == vec[0][0]
  {
    if |vec| == 1 {
      assert Spaced(vec[..0]) == "";
      assert Spaced(vec) == "" + " " + vec[0];
    } else {
      SpacedStart(vec[..|vec| - 1]);
    }
  }

  lemma ShortNotRedirects(b: Build, x: Item)
    requires x.Do? && Straight(x)
    ensures Redirects(b, b.RunOf(x)) <==> Long(x.vec)
  {
    var line := b.Line(x.vec);
    if !Long(x.vec) {
      SpacedStart(x.vec);
      assert Ascii(line)[1] == x.vec[0][0] as int % 256;
      assert Ascii(" " + ("<" + b.names.redname))[1] == 0x3C;
    }
  }

  /** One that leaves the file for arguments alone, but for what it has it removed after its own program. */
  predicate Orderly(b: Build, x: Item) {
    Going(x) && Straight(x) && (x.Erase? ==> b.File(x.file) != Shared(b))
  }

  lemma ItemSettled(b: Build, x: Item, n: nat, fails: nat -> bool)
    requires Orderly(b, x)
    ensures Flows(b.Expand(x)) && AllSettled(b, SectionEvents(b.Expand(x), n, fails))
  {
    match x
    case Say(text) =>
      assert b.Expand(x) == [Print(Ascii(text))];
      hide Ascii;
      OneCommand(Print(Ascii(text)), n, fails);
    case Do(_, _) => DoSettled(b, x, n, fails);
    case Erase(file) => EraseSettled(b, file, n, fails);
    case Mark(_) =>
      assert b.Expand(x)[1..] == [];
  }

  lemma EraseSettled(b: Build, file: string, n: nat, fails: nat -> bool)
    requires b.File(file) != Shared(b)
    ensures Flows(b.Erasure(file)) && AllSettled(b, SectionEvents(b.Erasure(file), n, fails))
  {
    hide Ascii;
    ErasureRuns(b, file, n, fails);
  }

  lemma OneCommand(c: Command, n: nat, fails: nat -> bool)
    requires Plain(c)
    ensures SectionEvents([c], n, fails) == [EventOf(c, c.Exec? && fails(n))]
  {
    assert [c][1..] == [];
    assert SectionEvents([], n + 1, fails) == [] && SectionEvents([], n, fails) == [];
  }

  lemma DoSettled(b: Build, x: Item, n: nat, fails: nat -> bool)
    requires x.Do? && Straight(x)
    ensures Flows(b.Expand(x)) && AllSettled(b, SectionEvents(b.Expand(x), n, fails))
  {
    ShortNotRedirects(b, x);
    DoEvents(b, x, n, fails);
    RunExec(b, x);
    hide *;
    var c := b.RunOf(x);
    if fails(n) {
      OneUnsettled(b, c, true);
    } else if !Long(x.vec) {
      OneUnsettled(b, c, false);
    } else {
      LongSettled(b, c, n);
    }
  }

  lemma RunExec(b: Build, x: Item)
    requires x.Do?
    ensures b.RunOf(x).Exec?
  {
  }

  /** What becomes of a program in a section, and of its redirection. */
  lemma DoEvents(b: Build, x: Item, n: nat, fails: nat -> bool)
    requires x.Do?
    ensures Flows(b.Expand(x))
    ensures SectionEvents(b.Expand(x), n, fails) == [Ran(b.RunOf(x), fails(n))]
      + if fails(n) || !Long(x.vec) then [] else ErasureEvents(b, b.names.redname)
  {
    hide Ascii, Spaced, Program;
    var c, erasure := b.RunOf(x), if Long(x.vec) then b.Erasure(b.names.redname) else [];
    assert b.Expand(x) == [c] + erasure;
    assert ([c] + erasure)[1..] == erasure;
    ErasureRuns(b, b.names.redname, n + 1, fails);
    assert SectionEvents([], n + 1, fails) == [];
  }

  function ErasureEvents(b: Build, file: string): seq<Event> {
    (if b.opt.verbose then [Printed(Ascii("ERA " + file))] else []) + [Removed(b.File(file))]
  }

  lemma ErasureRuns(b: Build, file: string, n: nat, fails: nat -> bool)
    ensures Flows(b.Erasure(file)) && SectionEvents(b.Erasure(file), n, fails) == ErasureEvents(b, file)
  {
    hide Ascii;
    var rm := RmFile(b.File(file));
    OneCommand(rm, n, fails);
    if b.opt.verbose {
      var said := Print(Ascii("ERA " + file));
      assert b.Erasure(file) == [said] + [rm];
      assert ([said] + [rm])[1..] == [rm];
    } else {
      assert b.Erasure(file) == [rm];
    }
  }

  lemma OneUnsettled(b: Build, c: Command, failed: bool)
    requires failed || !Redirects(b, c)
    ensures AllSettled(b, [Ran(c, failed)] + [])
  {
    hide Redirects;
    var es := [Ran(c, failed)] + [];
    assert es[..0] == [];
    assert es[0] == Ran(c, failed);
  }

  lemma LongSettled(b: Build, c: Command, n: nat)
    requires Redirects(b, c)
    ensures AllSettled(b, [Ran(c, false)] + ErasureEvents(b, b.names.redname))
  {
    hide Redirects, Ascii;
    var es := [Ran(c, false)] + ErasureEvents(b, b.names.redname);
    assert SucceedsIn(b, es[0]);
    assert es[|es| - 1] == Removed(Shared(b));
    assert es[..0] == [];
    assert forall t :: 0 < t < |es| ==> !es[t].Ran?;
  }

  /** As in a section, but with guards. */
  ghost predicate Flows(cs: seq<Command>) {
    forall i :: 0 <= i < |cs| ==> Plain(cs[i]) || cs[i].IfNerr?
  }

  lemma FlowStep(cs: seq<Command>, n: nat, fails: nat -> bool)
    requires cs != [] && Flows(cs)
    ensures Flows(cs[1..]) && (Plain(cs[0]) || cs[0].IfNerr?)
    ensures cs[0].IfNerr? ==> SectionEvents(cs, n, fails) == SectionEvents(cs[1..], n, fails)
    ensures Plain(cs[0]) ==> (
      var failed := cs[0].Exec? && fails(n);
      SectionEvents(cs, n, fails)
      == [EventOf(cs[0], failed)] + if failed then [] else SectionEvents(cs[1..], n + Count(cs[0]), fails))
  {
  }

  /** As long as nothing has failed guards change nothing. */
  lemma {:induction false} FlowRuns(cs: seq<Command>, more: seq<Command>, n: nat, fails: nat -> bool)
    requires Flows(cs)
    ensures var es := SectionEvents(cs, n, fails);
      Perform(cs + [Trap] + more, State(false, Skip), n, fails)
      == es + Perform(more, State(AnyFailed(es), Skip), n + Runs(es), fails)
  {
    hide *;
    var all := cs + [Trap] + more;
    if cs == [] {
      assert all == [Trap] + more;
      TrapStep(more, State(false, Skip), n, fails);
      NoEvents(n, fails);
    } else {
      var later := cs[1..];
      assert all[1..] == later + [Trap] + more && all[0] == cs[0];
      FlowStep(cs, n, fails);
      if cs[0].IfNerr? {
        GuardPassed(all, n, fails);
        FlowRuns(later, more, n, fails);
      } else if cs[0].Exec? && fails(n) {
        NoTraps(later);
        TrapAhead(later, more);
        FailStep(all, State(false, Skip), n, fails, |later| + 1);
        NoTrap(cs, n, fails);
        assert all[1..][|later| + 1..] == more;
        OneEvent(Ran(cs[0], true));
        RanCounts(cs[0]);
      } else {
        PlainStep(all, State(false, Skip), n, fails);
        FlowRuns(later, more, n + Count(cs[0]), fails);
        EventFirst(EventOf(cs[0], false), SectionEvents(later, n + Count(cs[0]), fails));
        EventCount(cs[0], false);
      }
    }
  }

  lemma GuardPassed(cs: seq<Command>, n: nat, fails: nat -> bool)
    requires cs != [] && cs[0].IfNerr?
    ensures Perform(cs, State(false, Skip), n, fails) == Perform(cs[1..], State(false, Skip), n, fails)
  {
  }

  lemma RanCounts(c: Command)
    requires c.Exec?
    ensures Count(c) == 1
  {
  }

  lemma NoTraps(cs: seq<Command>)
    requires Flows(cs)
    ensures Trap !in cs && Exit !in cs
  {
  }

  /** A section goes on in a second part if the first has not failed. */
  lemma {:induction false} SectionEventsSum(x: seq<Command>, y: seq<Command>, n: nat, fails: nat -> bool)
    requires Flows(x) && Flows(y)
    ensures Flows(x + y)
    ensures var es := SectionEvents(x, n, fails);
      SectionEvents(x + y, n, fails) == es + if AnyFailed(es) then [] else SectionEvents(y, n + Runs(es), fails)
    decreases |x|
  {
    hide *;
    if x == [] {
      assert x + y == y;
      NoEvents(n, fails);
      NothingFailed();
      assert [] + SectionEvents(y, n, fails) == SectionEvents(y, n, fails);
    } else {
      BothFlow(x, y);
      FlowStep(x, n, fails);
      FlowStep(x + y, n, fails);
      assert (x + y)[1..] == x[1..] + y && (x + y)[0] == x[0];
      if x[0].IfNerr? {
        SectionEventsSum(x[1..], y, n, fails);
        return;
      }
      var failed := x[0].Exec? && fails(n);
      var e, more := EventOf(x[0], failed), if failed then [] else SectionEvents(x[1..], n + Count(x[0]), fails);
      EventCount(x[0], failed);
      EventFirst(e, more);
      if failed {
        assert [e] + [] + [] == [e] + [];
      } else {
        SectionEventsSum(x[1..], y, n + Count(x[0]), fails);
        var rest := if AnyFailed(more) then [] else SectionEvents(y, n + Count(x[0]) + Runs(more), fails);
        assert [e] + (more + rest) == [e] + more + rest;
      }
    }
  }

  lemma EventCount(c: Command, failed: bool)
    requires Plain(c) && (failed ==> c.Exec?)
    ensures var e := EventOf(c, failed); (if e.Ran? then 1 else 0) == Count(c) && (e.Ran? && e.failed <==> failed)
  {
  }

  lemma BothFlow(x: seq<Command>, y: seq<Command>)
    requires Flows(x) && Flows(y)
    ensures Flows(x + y)
  {
  }

  lemma NothingFailed()
    ensures !AnyFailed([]) && Runs([]) == 0
  {
  }

  ghost predicate StraightItems(xs: seq<Item>) {
    forall i :: 0 <= i < |xs| ==> Working(xs[i]) && Straight(xs[i])
  }

  ghost predicate OrderlyItems(b: Build, xs: seq<Item>) {
    forall i :: 0 <= i < |xs| ==> Orderly(b, xs[i])
  }

  lemma {:induction false} SectionSettled(b: Build, xs: seq<Item>, n: nat, fails: nat -> bool)
    requires OrderlyItems(b, xs)
    ensures Flows(b.Expanded(xs)) && AllSettled(b, SectionEvents(b.Expanded(xs), n, fails))
    decreases |xs|
  {
    hide *;
    if xs == [] {
      NoneExpanded(b);
      NoEvents(n, fails);
      NoneSettled(b);
      NothingFlows();
    } else {
      var front, last := xs[..|xs| - 1], xs[|xs| - 1];
      OrderlyParts(b, xs);
      SectionSettled(b, front, n, fails);
      ExpandedMore(b, front, last);
      assert xs == front + [last];
      var es := SectionEvents(b.Expanded(front), n, fails);
      ItemSettled(b, last, n + Runs(es), fails);
      SectionEventsSum(b.Expanded(front), b.Expand(last), n, fails);
      NoneSettled(b);
      AllSettledSum(b, es, if AnyFailed(es) then [] else SectionEvents(b.Expand(last), n + Runs(es), fails));
    }
  }

  lemma NothingFlows()
    ensures Flows([])
  {
  }

  lemma OrderlyParts(b: Build, xs: seq<Item>)
    requires OrderlyItems(b, xs) && xs != []
    ensures OrderlyItems(b, xs[..|xs| - 1]) && Orderly(b, xs[|xs| - 1])
  {
  }

  lemma {:induction false} SectionsSettled(b: Build, sections: seq<seq<Command>>, n: nat, fails: nat -> bool)
    requires forall i, m :: 0 <= i < |sections| && 0 <= m ==> AllSettled(b, SectionEvents(sections[i], m, fails))
    ensures AllSettled(b, SectionsEvents(sections, n, fails))
    decreases |sections|
  {
    hide AllSettled, SectionEvents;
    if sections == [] {
      NoneSettled(b);
    } else {
      var es := SectionEvents(sections[0], n, fails);
      SectionsSettled(b, sections[1..], n + Runs(es), fails);
      AllSettledSum(b, es, SectionsEvents(sections[1..], n + Runs(es), fails));
    }
  }

  /** The file for arguments is none of the temporary files of the passes. */
  predicate FilesApart(b: Build) {
    forall x :: x in b.CleanItems() ==> b.File(x.file) != Shared(b)
  }

  ghost predicate AllStraight(b: Build) {
    forall i :: 0 <= i < |b.Sections(|b.sources|)| ==> StraightItems(b.Sections(|b.sources|)[i])
  }

  lemma {:induction false} QuietSettled(b: Build, cs: seq<Command>)
    requires AllQuiet(cs) && RmFile(Shared(b)) !in cs
    ensures Removed(Shared(b)) !in QuietEvents(cs) && forall i :: 0 <= i < |QuietEvents(cs)| ==> !QuietEvents(cs)[i].Ran?
  {
    if cs != [] {
      assert Quiet(cs[0]);
      QuietSettled(b, cs[1..]);
    }
  }

  lemma {:induction false} OnlyErased(b: Build, xs: seq<Item>, f: name)
    requires forall i :: 0 <= i < |xs| ==> xs[i].Erase? && b.File(xs[i].file) != f
    ensures RmFile(f) !in b.Expanded(xs)
  {
    hide b.File;
    if xs != [] {
      OnlyErased(b, xs[..|xs| - 1], f);
    }
  }

  lemma CleanSettled(b: Build)
    requires FilesApart(b) && AllQuiet(b.Expanded(b.CleanItems()))
    ensures AllSettled(b, QuietEvents(b.Expanded(b.CleanItems())))
  {
    OnlyErased(b, b.CleanItems(), Shared(b));
    QuietSettled(b, b.Expanded(b.CleanItems()));
    hide b.Expanded, b.CleanItems, QuietEvents;
  }

  /** Up to the link step the file is gone exactly if a program with redirected arguments has succeeded. */
  lemma BeforeSettled(b: Build, fails: nat -> bool)
    requires FilesApart(b) && AllStraight(b)
    ensures WellFormed(b.Plan()) && AllSettled(b, Before(b.Plan(), fails))
  {
    PlanWellFormed(b);
    PlanEnds(b);
    CleanSettled(b);
    BeforeIs(b, fails);
    hide *;
    hide AllSettled;
    var sections := b.Plan().sections;
    forall i, m | 0 <= i < |sections| && 0 <= m ensures AllSettled(b, SectionEvents(sections[i], m, fails)) {
      StraightAt(b, i);
      SectionSettled(b, b.Sections(|b.sources|)[i], m, fails);
    }
    SectionsSettled(b, sections, 0, fails);
    AllSettledSum(b, SectionsEvents(sections, 0, fails), QuietEvents(b.Plan().clean));
  }

  lemma BeforeIs(b: Build, fails: nat -> bool)
    requires WellFormed(b.Plan())
    ensures AllQuiet(b.Plan().clean)
    ensures Before(b.Plan(), fails) == SectionsEvents(b.Plan().sections, 0, fails) + QuietEvents(b.Plan().clean)
  {
  }

  lemma StraightAt(b: Build, i: nat)
    requires AllStraight(b) && i < |b.Sections(|b.sources|)|
    ensures OrderlyItems(b, b.Sections(|b.sources|)[i])
  {
    assert StraightItems(b.Sections(|b.sources|)[i]);
  }

  // ---------------------------------------------------------------- after the link step has been reached

  /** No program is run. */
  ghost predicate Silent(es: seq<Event>) {
    forall i :: 0 <= i < |es| ==> !es[i].Ran?
  }

  lemma SilentSum(x: seq<Event>, y: seq<Event>)
    requires Silent(x) && Silent(y)
    ensures Silent(x + y)
  {
  }

  function Ending(b: Build): seq<Command> {
    Closing(b.Plan().last, b.Plan().self)
  }

  lemma EndingSilent(b: Build, s: State, n: nat, fails: nat -> bool)
    ensures Silent(Perform(Ending(b), s, n, fails))
  {
    var said, leave := EndingIs(b);
    hide *;
    QuietRuns(said, leave, s, n, fails);
    QuietSilent(said);
    LeaveSilent(leave, s, n, fails);
    SilentSum(QuietEvents(said), Perform(leave, s, n, fails));
  }

  lemma EndingIs(b: Build) returns (said: seq<Command>, leave: seq<Command>)
    ensures Ending(b) == said + leave && AllQuiet(said) && |leave| == 1 && leave[0].RmExit?
  {
    hide Ascii, b.File;
    said, leave := b.Echoed(b.names.execmd), [RmExit(b.File(b.names.execmd))];
  }

  lemma LeaveSilent(cs: seq<Command>, s: State, n: nat, fails: nat -> bool)
    requires |cs| == 1 && cs[0].RmExit?
    ensures Silent(Perform(cs, s, n, fails))
  {
  }

  lemma {:induction false} QuietSilent(cs: seq<Command>)
    requires AllQuiet(cs)
    ensures Silent(QuietEvents(cs))
  {
    if cs != [] {
      assert Quiet(cs[0]);
      QuietSilent(cs[1..]);
    }
  }

  lemma QuietToEnd(b: Build, cs: seq<Command>, s: State, n: nat, fails: nat -> bool)
    requires AllQuiet(cs)
    ensures Silent(Perform(cs + [Trap] + Ending(b), s, n, fails))
  {
    hide *;
    assert cs + [Trap] + Ending(b) == cs + ([Trap] + Ending(b));
    QuietRuns(cs, [Trap] + Ending(b), s, n, fails);
    TrapStep(Ending(b), s, n, fails);
    QuietSilent(cs);
    EndingSilent(b, s, n, fails);
    SilentSum(QuietEvents(cs), Perform(Ending(b), s, n, fails));
  }

  lemma QuietSum(x: seq<Command>, y: seq<Command>)
    requires AllQuiet(x) && AllQuiet(y)
    ensures AllQuiet(x + y)
  {
  }

  /** The cross-referencer is not run once something has failed. */
  lemma CrossSilent(b: Build, n: nat, fails: nat -> bool)
    ensures Silent(Perform(b.Expanded(b.CrossItems()) + [Trap] + Ending(b), State(true, Skip), n, fails))
  {
    if b.opt.xref && b.link.xrname.Some? {
      var cref, erase := Do(b.names.cref, [b.link.xrname.value, b.link.listing, b.names.crtmp]), Erase(b.names.crtmp);
      b.CrossIs(b.link.xrname.value);
      DoSplit(b, cref);
      TidyingQuiet(b, [erase]);
      PartsAre(b);
      hide *;
      var tail := DoTail(b, cref);
      ExpandedSum(b, [Mark(IfNerr)] + [cref], [erase]);
      ExpandedSum(b, [Mark(IfNerr)], [cref]);
      ExpandedOne(b, Mark(IfNerr));
      ExpandedOne(b, cref);
      QuietSum(tail, b.Expanded([erase]));
      Guarding(b.RunOf(cref), tail, b.Expanded([erase]), Ending(b));
      GuardedStep(b.RunOf(cref), tail + b.Expanded([erase]) + [Trap] + Ending(b), State(true, Skip), n, fails);
      QuietToEnd(b, tail + b.Expanded([erase]), State(true, Skip), n, fails);
      Failed();
    } else {
      TidyingQuiet(b, b.CrossItems());
      hide *;
      QuietToEnd(b, b.Expanded(b.CrossItems()), State(true, Skip), n, fails);
    }
  }

  lemma Failed()
    ensures State(true, Skip).errors
  {
  }

  function DoTail(b: Build, x: Item): seq<Command>
    requires x.Do?
  {
    if Long(x.vec) then b.Erasure(b.names.redname) else []
  }

  lemma DoSplit(b: Build, x: Item)
    requires x.Do?
    ensures b.Expand(x) == [b.RunOf(x)] + DoTail(b, x) && b.RunOf(x).Exec? && AllQuiet(DoTail(b, x))
  {
    ErasureQuiet(b, x.vec);
  }

  lemma Guarding(c: Command, x: seq<Command>, y: seq<Command>, z: seq<Command>)
    ensures [IfNerr] + ([c] + x) + y + [Trap] + z == [IfNerr, c] + (x + y + [Trap] + z)
  {
  }

  /** After a failure at most the conversion is run, first of all but for the removal of the file for arguments. */
  lemma Unlinked(b: Build, n: nat, fails: nat -> bool) returns (rest: seq<Event>)
    requires !b.opt.keep
    ensures AllQuiet(DoTail(b, LinkItem(b)))
    ensures Perform(Finish(b.Plan()), State(true, Skip), n, fails) == QuietEvents(DoTail(b, LinkItem(b))) + rest
    ensures rest == [] || Silent(rest[1..])
  {
    var link, quiet := LinkItem(b), DoTail(b, LinkItem(b));
    DoSplit(b, link);
    FinishUnlinked(b);
    hide *;
    GuardedStep(b.RunOf(link), quiet + Later(b), State(true, Skip), n, fails);
    Failed();
    QuietRuns(quiet, Later(b), State(true, Skip), n, fails);
    rest := Perform(Later(b), State(true, Skip), n, fails);
    ConversionLast(b, n, fails);
  }

  /** The commands after the linker. */
  function Later(b: Build): seq<Command> {
    b.Expanded(b.AfterLink()) + b.Expanded(b.CrossItems()) + [Trap] + Ending(b)
  }

  function LinkItem(b: Build): (x: Item)
    ensures x.Do?
  {
    Do(b.names.linker, b.LinkArguments())
  }

  lemma FinishUnlinked(b: Build)
    requires !b.opt.keep
    ensures Finish(b.Plan()) == [IfNerr, b.RunOf(LinkItem(b))] + (DoTail(b, LinkItem(b)) + Later(b))
  {
    PlanEnds(b);
    PartsAre(b);
    RunOfIs(b, LinkItem(b));
    FinishIs(b);
    hide *;
    hide b.LinkArguments;
    var l, tail := LinkItem(b), DoTail(b, LinkItem(b));
    assert l == Do(b.names.linker, b.LinkArguments()) && tail == if Long(b.LinkArguments()) then b.Erasure(b.names.redname) else [] by {
      LinkTail(b);
    }
    LaterIs(b);
    Apiece([IfNerr, b.RunOf(l)], tail, b.Expanded(b.AfterLink()), b.Expanded(b.CrossItems()), [Trap], Ending(b));
  }

  lemma LinkTail(b: Build)
    ensures LinkItem(b) == Do(b.names.linker, b.LinkArguments())
    ensures DoTail(b, LinkItem(b)) == if Long(b.LinkArguments()) then b.Erasure(b.names.redname) else []
  {
  }

  lemma LaterIs(b: Build)
    ensures Later(b) == b.Expanded(b.AfterLink()) + b.Expanded(b.CrossItems()) + [Trap] + Ending(b)
  {
  }

  lemma FinishIs(b: Build)
    ensures Finish(b.Plan()) == Linking(b.Plan()) + b.Others() + [Trap] + Ending(b)
  {
    PlanEnds(b);
    hide b.Plan, b.Others, Linking;
  }

  lemma Apiece(x: seq<Command>, y: seq<Command>, z: seq<Command>, u: seq<Command>, v: seq<Command>, w: seq<Command>)
    ensures x + (y + z + u) + v + w == x + (y + (z + u + v + w))
  {
  }

  lemma ConversionLast(b: Build, n: nat, fails: nat -> bool)
    ensures var es := Perform(Later(b), State(true, Skip), n, fails); es == [] || Silent(es[1..])
  {
    var first, quiet := AfterLinkParts(b);
    LaterIs(b);
    CrossFlows(b);
    hide *;
    var cross := b.Expanded(b.CrossItems());
    var later := quiet + cross + [Trap] + Ending(b);
    SilentLater(b, quiet, n, fails);
    if first == [] {
      assert b.Expanded(b.AfterLink()) == quiet;
      SilentTail(Perform(later, State(true, Skip), n, fails));
    } else {
      var c := first[0];
      var all := b.Expanded(b.AfterLink()) + cross + [Trap] + Ending(b);
      assert all == [c] + later;
      assert all[1..] == later;
      QuietFlows(quiet);
      BothFlow(quiet, cross);
      NoTraps(quiet + cross);
      TrapAhead(quiet + cross, Ending(b));
      if fails(n) {
        FailStep(all, State(true, Skip), n, fails, |quiet + cross| + 1);
        assert later[|quiet + cross| + 1..] == Ending(b);
        EndingSilent(b, State(true, Skip), n + 1, fails);
      } else {
        QuietFirst(c);
        PlainStep(all, State(true, Skip), n, fails);
        SilentLater(b, quiet, n + Count(c), fails);
      }
    }
  }

  lemma SilentTail(es: seq<Event>)
    requires Silent(es)
    ensures es == [] || Silent(es[1..])
  {
  }

  lemma QuietFirst(c: Command)
    requires c.Exec?
    ensures Plain(c)
  {
  }

  lemma QuietFlows(cs: seq<Command>)
    requires AllQuiet(cs)
    ensures Flows(cs)
  {
    forall i | 0 <= i < |cs| ensures Plain(cs[i]) { assert Quiet(cs[i]); }
  }

  lemma SilentLater(b: Build, quiet: seq<Command>, n: nat, fails: nat -> bool)
    requires AllQuiet(quiet)
    ensures Silent(Perform(quiet + b.Expanded(b.CrossItems()) + [Trap] + Ending(b), State(true, Skip), n, fails))
  {
    hide *;
    var later := b.Expanded(b.CrossItems()) + [Trap] + Ending(b);
    assert quiet + b.Expanded(b.CrossItems()) + [Trap] + Ending(b) == quiet + later;
    QuietRuns(quiet, later, State(true, Skip), n, fails);
    QuietSilent(quiet);
    CrossSilent(b, n, fails);
    SilentSum(QuietEvents(quiet), Perform(later, State(true, Skip), n, fails));
  }

  lemma AfterLinkParts(b: Build) returns (first: seq<Command>, quiet: seq<Command>)
    ensures b.Expanded(b.AfterLink()) == first + quiet && AllQuiet(quiet)
    ensures first == [] || (|first| == 1 && first[0].Exec?)
  {
    hide *;
    var others := AfterLinkIs(b);
    TidyingQuiet(b, others);
    if b.opt.reloc {
      var x := b.ObjtoItem();
      DoSplit(b, x);
      ExpandedSum(b, [x], others);
      ExpandedOne(b, x);
      first, quiet := [b.RunOf(x)], DoTail(b, x) + b.Expanded(others);
      QuietSum(DoTail(b, x), b.Expanded(others));
      assert first + DoTail(b, x) + b.Expanded(others) == first + quiet;
    } else {
      assert b.AfterLink() == others;
      first, quiet := [], b.Expanded(others);
    }
  }

  lemma AfterLinkIs(b: Build) returns (others: seq<Item>)
    ensures b.AfterLink() == (if b.opt.reloc then [b.ObjtoItem()] else []) + others
    ensures forall i :: 0 <= i < |others| ==> Tidying(others[i])
  {
    others := (if b.opt.reloc then [Erase(b.names.ldotobj)] else [])
      + if |b.sources| == 1 && b.link.nfiles == 1 then [Erase(b.link.single)] else [];
  }

  lemma CrossFlows(b: Build)
    ensures Flows(b.Expanded(b.CrossItems()))
  {
    PartsGoing(b);
    hide *;
    GoingFlows(b, b.CrossItems());
  }

  lemma {:induction false} GoingFlows(b: Build, xs: seq<Item>)
    requires forall i :: 0 <= i < |xs| ==> Going(xs[i])
    ensures Flows(b.Expanded(xs))
  {
    if xs == [] {
      NoneExpanded(b);
    } else {
      hide b.Expand, b.Expanded, Going;
      GoingFlows(b, xs[..|xs| - 1]);
      GoingFlow(b, xs[|xs| - 1]);
      ExpandedMore(b, xs[..|xs| - 1], xs[|xs| - 1]);
      assert xs == xs[..|xs| - 1] + [xs[|xs| - 1]];
      BothFlow(b.Expanded(xs[..|xs| - 1]), b.Expand(xs[|xs| - 1]));
    }
  }

  lemma GoingFlow(b: Build, x: Item)
    requires Going(x)
    ensures Flows(b.Expand(x))
  {
    hide Ascii;
  }

  /** The files removed after linking and cross-referencing are not the file for arguments, and no short command line
      there looks like a redirection. */
  ghost predicate LaterApart(b: Build) {
    OrderlyItems(b, b.LinkItems() + b.CrossItems())
  }

  /** As long as nothing has failed: the file is gone exactly if a program with redirected arguments has succeeded. */
  lemma LinkedSettled(b: Build, n: nat, fails: nat -> bool) returns (es: seq<Event>, rest: seq<Event>)
    requires LaterApart(b)
    ensures Perform(Finish(b.Plan()), State(false, Skip), n, fails) == es + rest
    ensures AllSettled(b, es) && Silent(rest)
  {
    hide *;
    var items := b.LinkItems() + b.CrossItems();
    OrderlyLater(b);
    FinishItems(b);
    SectionSettled(b, items, n, fails);
    FlowRuns(b.Expanded(items), Ending(b), n, fails);
    es := SectionEvents(b.Expanded(items), n, fails);
    rest := Perform(Ending(b), State(AnyFailed(es), Skip), n + Runs(es), fails);
    EndingSilent(b, State(AnyFailed(es), Skip), n + Runs(es), fails);
  }

  lemma OrderlyLater(b: Build)
    requires LaterApart(b)
    ensures OrderlyItems(b, b.LinkItems() + b.CrossItems())
  {
  }

  lemma FinishItems(b: Build)
    ensures Finish(b.Plan()) == b.Expanded(b.LinkItems() + b.CrossItems()) + [Trap] + Ending(b)
  {
    LinkingIs(b);
    FinishIs(b);
    hide *;
    ExpandedSum(b, b.LinkItems(), b.CrossItems());
  }

  // ---------------------------------------------------------------- what a program finds

  /** The linker was wanted and passed over, and the file that was to be for its arguments removed all the same. */
  predicate RemovedUnused(b: Build, fails: nat -> bool)
    requires WellFormed(b.Plan())
  {
    !b.opt.keep && AnyFailed(Before(b.Plan(), fails)) && Long(b.LinkArguments())
  }

  /** In the whole run a program finds its own long list of arguments exactly if no program with redirected arguments has
      succeeded before it, its list is that of the last one in the command file, and it does not come after a linker with
      a long list that was passed over. */
  lemma RedirectionExact(b: Build, fails: nat -> bool, t: nat, i: nat, j: nat)
    requires FilesApart(b) && AllStraight(b) && WellFormed(b.Plan())
    requires t > |Before(b.Plan(), fails)| ==> LaterApart(b)
    requires t < |Whole(b, fails)| && Whole(b, fails)[t].Ran?
    requires i <= j < |b.Items()| && LongItem(b.Items()[i]) && LongItem(b.Items()[j])
    requires forall k :: j < k < |b.Items()| ==> !LongItem(b.Items()[k])
    requires Plainly(b.Items()[j].vec)
    ensures Finds(b, Whole(b, fails), t, b.Items()[i].vec)
      <==> (!Succeeded(b, Whole(b, fails)[..t]) && !(t > |Before(b.Plan(), fails)| && RemovedUnused(b, fails))
            && Listed(b.Items()[i].vec) == Listed(b.Items()[j].vec))
  {
    hide *;
    RedirectionRight(b, Whole(b, fails), t, i, j);
    SettledAt(b, fails, t);
  }

  /** Whenever a program is started the file is gone exactly if a program with redirected arguments has succeeded or the
      linker was passed over. */
  lemma SettledAt(b: Build, fails: nat -> bool, t: nat)
    requires FilesApart(b) && AllStraight(b) && WellFormed(b.Plan())
    requires t > |Before(b.Plan(), fails)| ==> LaterApart(b)
    requires t < |Whole(b, fails)| && Whole(b, fails)[t].Ran?
    ensures Removed(Shared(b)) in Whole(b, fails)[..t]
      <==> Succeeded(b, Whole(b, fails)[..t]) || (t > |Before(b.Plan(), fails)| && RemovedUnused(b, fails))
  {
    hide *;
    var before := Before(b.Plan(), fails);
    var after := ScriptRuns(b.Plan(), fails);
    WholeIs(b, fails);
    BeforeSettled(b, fails);
    if t <= |before| {
      assert (before + after)[..t] == before[..t];
      if t == |before| { assert before[..t] == before; }
      SettledThen(b, before, t);
    } else if AnyFailed(before) {
      UnlinkedAt(b, fails, t, before, after);
    } else {
      Unremoved(b, fails);
      LinkedAt(b, fails, t, before, after);
    }
  }

  lemma Unremoved(b: Build, fails: nat -> bool)
    requires WellFormed(b.Plan()) && !AnyFailed(Before(b.Plan(), fails))
    ensures !RemovedUnused(b, fails)
  {
  }

  lemma SettledThen(b: Build, es: seq<Event>, t: nat)
    requires AllSettled(b, es) && t <= |es| && (t < |es| ==> es[t].Ran?)
    ensures Removed(Shared(b)) in es[..t] <==> Succeeded(b, es[..t])
  {
    hide Succeeded, Shared;
    if t == |es| { assert es[..t] == es; }
    assert Settled(b, es[..t]);
  }

  lemma LinkedAt(b: Build, fails: nat -> bool, t: nat, before: seq<Event>, after: seq<Event>)
    requires LaterApart(b) && AllSettled(b, before)
    requires after == Perform(Finish(b.Plan()), State(false, Skip), Runs(before), fails)
    requires |before| < t < |before + after| && (before + after)[t].Ran?
    ensures Removed(Shared(b)) in (before + after)[..t] <==> Succeeded(b, (before + after)[..t])
  {
    hide *;
    var es, rest := LinkedSettled(b, Runs(before), fails);
    AllSettledSum(b, before, es);
    assert before + (es + rest) == (before + es) + rest;
    SettledUnless(b, before + es, rest, t);
  }

  lemma SettledUnless(b: Build, es: seq<Event>, rest: seq<Event>, t: nat)
    requires AllSettled(b, es) && Silent(rest) && t < |es + rest| && (es + rest)[t].Ran?
    ensures Removed(Shared(b)) in (es + rest)[..t] <==> Succeeded(b, (es + rest)[..t])
  {
    hide *;
    BeforeSilence(es, rest, t);
    assert (es + rest)[..t] == es[..t];
    SettledThen(b, es, t);
  }

  lemma BeforeSilence(es: seq<Event>, rest: seq<Event>, t: nat)
    requires Silent(rest) && t < |es + rest| && (es + rest)[t].Ran?
    ensures t < |es|
  {
    forall i | |es| <= i < |es + rest| ensures !(es + rest)[i].Ran? { assert (es + rest)[i] == rest[i - |es|]; }
  }

  lemma OneRun(es: seq<Event>, quiet: seq<Event>, rest: seq<Event>, t: nat)
    requires Silent(quiet) && (rest == [] || Silent(rest[1..]))
    requires |es| <= t < |es + (quiet + rest)| && (es + (quiet + rest))[t].Ran?
    ensures t == |es| + |quiet|
  {
    var all := es + (quiet + rest);
    forall i | |es| <= i < |es| + |quiet| ensures !all[i].Ran? { assert all[i] == quiet[i - |es|]; }
    forall i | |es| + |quiet| < i < |all| ensures !all[i].Ran? { assert all[i] == rest[1..][i - |es| - |quiet| - 1]; }
  }

  lemma UnlinkedAt(b: Build, fails: nat -> bool, t: nat, before: seq<Event>, after: seq<Event>)
    requires WellFormed(b.Plan()) && before == Before(b.Plan(), fails) && AnyFailed(before)
    requires AllSettled(b, before)
    requires after == Perform(Finish(b.Plan()), State(true, Skip), Runs(before), fails)
    requires |before| < t < |before + after| && (before + after)[t].Ran?
    ensures Removed(Shared(b)) in (before + after)[..t]
      <==> Succeeded(b, (before + after)[..t]) || RemovedUnused(b, fails)
  {
    hide *;
    if b.opt.keep {
      KeptFinish(b);
      CrossSilent(b, Runs(before), fails);
      BeforeSilence(before, after, t);
    } else {
      var rest := Unlinked(b, Runs(before), fails);
      var quiet := QuietEvents(DoTail(b, LinkItem(b)));
      QuietSilent(DoTail(b, LinkItem(b)));
      OneRun(before, quiet, rest, t);
      assert (before + (quiet + rest))[..t] == before + quiet;
      UnlinkedPrefix(b, fails, before);
    }
  }

  lemma KeptFinish(b: Build)
    requires b.opt.keep
    ensures Finish(b.Plan()) == b.Expanded(b.CrossItems()) + [Trap] + Ending(b)
  {
    FinishIs(b);
    PartsAre(b);
    hide *;
    assert [] + ([] + b.Expanded(b.CrossItems())) + [Trap] + Ending(b) == b.Expanded(b.CrossItems()) + [Trap] + Ending(b);
  }

  lemma UnlinkedPrefix(b: Build, fails: nat -> bool, before: seq<Event>)
    requires WellFormed(b.Plan()) && before == Before(b.Plan(), fails) && AnyFailed(before) && !b.opt.keep
    requires AllSettled(b, before) && AllQuiet(DoTail(b, LinkItem(b)))
    ensures var es := before + QuietEvents(DoTail(b, LinkItem(b)));
      Removed(Shared(b)) in es <==> Succeeded(b, es) || RemovedUnused(b, fails)
  {
    var quiet := DoTail(b, LinkItem(b));
    hide Succeeded, AnyFailed, Before, WellFormed, b.LinkArguments;
    if Long(b.LinkArguments()) {
      assert b.Erasure(b.names.redname)[|quiet| - 1] == RmFile(Shared(b));
      QuietIn(quiet, RmFile(Shared(b)));
    } else {
      assert QuietEvents(quiet) == [];
      assert before + [] == before;
      assert Settled(b, before);
    }
  }

  // ---------------------------------------------------------------- two long command lines

  /** When nothing fails, the linker finds no file at all if its command line is too long and that of a source file's first
      program was, whatever the lists. */
  lemma LinkerFindsNothing(b: Build, fails: nat -> bool, k: nat)
    requires FilesApart(b) && AllStraight(b) && !b.opt.keep && Long(b.LinkArguments())
    requires WellFormed(b.Plan()) && !AnyFailed(Before(b.Plan(), fails))
    requires k < |b.sources| && !b.sources[k].kind.SourceOther? && Long(Starter(b, b.sources[k]).vec)
    ensures var t := |Before(b.Plan(), fails)|;
      && t < |Whole(b, fails)| && Whole(b, fails)[t] == Ran(b.Run(b.names.linker, b.LinkArguments()), fails(Runs(Before(b.Plan(), fails))))
      && OnDisk(b.Redirected(b.Items()), Shared(b), Whole(b, fails)[..t]) == None
  {
    var x, before := Starter(b, b.sources[k]), Before(b.Plan(), fails);
    PlanEnds(b);
    AllStart(b, k, fails);
    WholeIs(b, fails);
    LongRedirects(b, x);
    hide *;
    var after := ScriptRuns(b.Plan(), fails);
    Started(b, b.RunOf(x), before);
    BeforeSettled(b, fails);
    SettledWhole(b, before);
    assert (before + after)[..|before|] == before;
    OnDiskExact(b.Redirected(b.Items()), Shared(b), before);
  }

  lemma LongRedirects(b: Build, x: Item)
    requires x.Do? && Long(x.vec)
    ensures Redirects(b, b.RunOf(x))
  {
  }

  lemma Started(b: Build, c: Command, es: seq<Event>)
    requires WasRun(c, es) && Redirects(b, c) && !AnyFailed(es)
    ensures Succeeded(b, es)
  {
    if Ran(c, true) in es { FailedIn(es, c); }
    var u :| 0 <= u < |es| && es[u] == Ran(c, false);
    assert SucceedsIn(b, es[u]);
  }

  lemma {:induction false} FailedIn(es: seq<Event>, c: Command)
    requires Ran(c, true) in es
    ensures AnyFailed(es)
  {
    if es[0] != Ran(c, true) { FailedIn(es[1..], c); }
  }

  lemma SettledWhole(b: Build, es: seq<Event>)
    requires AllSettled(b, es) && Succeeded(b, es)
    ensures Removed(Shared(b)) in es
  {
  }

  lemma {:induction false} NoneFails(cs: seq<Command>, n: nat, fails: nat -> bool)
    requires Section(cs) && forall m :: !fails(m)
    ensures !AnyFailed(SectionEvents(cs, n, fails))
    decreases |cs|
  {
    hide SectionEvents, AnyFailed;
    NoEvents(n, fails);
    if cs != [] {
      SectionStep(cs, n, fails);
      NoneFails(cs[1..], n + Count(cs[0]), fails);
      EventCount(cs[0], false);
      EventFirst(EventOf(cs[0], false), SectionEvents(cs[1..], n + Count(cs[0]), fails));
    }
  }

  lemma {:induction false} NoSectionFails(sections: seq<seq<Command>>, n: nat, fails: nat -> bool)
    requires AllSections(sections) && forall m :: !fails(m)
    ensures !AnyFailed(SectionsEvents(sections, n, fails))
    decreases |sections|
  {
    hide SectionEvents, AnyFailed, Section;
    NothingFailed();
    if sections != [] {
      var es := SectionEvents(sections[0], n, fails);
      NoneFails(sections[0], n, fails);
      NoSectionFails(sections[1..], n + Runs(es), fails);
      RunsSum(es, SectionsEvents(sections[1..], n + Runs(es), fails));
    }
  }

  lemma BeforeUnfailed(b: Build, fails: nat -> bool)
    requires forall m :: !fails(m)
    ensures WellFormed(b.Plan()) && !AnyFailed(Before(b.Plan(), fails))
  {
    PlanWellFormed(b);
    BeforeIs(b, fails);
    SectionsOf(b);
    hide *;
    NoSectionFails(b.Plan().sections, 0, fails);
    QuietCounts(b.Plan().clean);
    RunsSum(SectionsEvents(b.Plan().sections, 0, fails), QuietEvents(b.Plan().clean));
  }

  lemma SectionsOf(b: Build)
    requires WellFormed(b.Plan())
    ensures AllSections(b.Plan().sections)
  {
  }

  // ---------------------------------------------------------------- a case of it

  function Wide(): string {
    seq(125, _ => 'A')
  }

  /** A control block that tells names apart. */
  function Block(s: string): Fcb {
    Fcb(0, seq(32, i requires 0 <= i < 32 => if i < |s| then s[i] as int % 256 else 0x20))
  }

  function SampleNames(): Names {
    Names("LINK", "OBJTOHEX", "CGEN", "OPTIM", "CPP", "ZAS", "P1", "CRTCPM.OBJ", "CREF", "SYMTOAS",
          "$CTMP1.$$$", "$CTMP2.$$$", "$CTMP3.$$$", "$CTMP4.$$$", "$L.OBJ", "$$EXEC.$$$", "CREF.TMP", "$CTMP5.$$$")
  }

  /** One C file, with a long definition for the preprocessor and a long option for the linker. */
  function Sample(): Build {
    Build(Options(false, false, false, false, false, false, false, false, false, false), SampleNames(), Block,
          [Source("X.C", "X", SourceC)], [Wide()],
          Link([Wide()], "-Ptext=0,data,bss", "-C100H", "X.COM", ["CRTCPM.OBJ", "X.OBJ"], [], "LIBC.LIB", "X.OBJ", 1, None, ""))
  }

  lemma WideLong(vec: vector)
    requires vec[0] == Wide()
    ensures Long(vec)
  {
    SpacedStart(vec);
  }

  lemma SampleLong()
    ensures !Sample().opt.keep && Long(Sample().LinkArguments())
    ensures |Sample().sources| == 1 && Sample().sources[0].kind.SourceC? && Long(Starter(Sample(), Sample().sources[0]).vec)
  {
    hide Long, Spaced, Wide;
    WideLong(Sample().LinkArguments());
    WideLong(Sample().iuds + ["X.C", "$CTMP1.$$$"]);
  }

  lemma SampleFiles()
    ensures FilesApart(Sample())
  {
    hide Wide;
    forall k | k in {1, 2, 3, 5} ensures Block(["0", "$CTMP1.$$$", "$CTMP2.$$$", "$CTMP3.$$$", "", "$CTMP5.$$$"][k]).bytes[..16]
      != Block("$CTMP4.$$$").bytes[..16]
    {
      assert Block("$CTMP4.$$$").bytes[..16][5] == 0x34;
    }
  }

  lemma SampleStraight()
    ensures AllStraight(Sample())
  {
    var b := Sample();
    hide Long, Spaced;
    assert b.Sections(1) == b.Sections(0) + b.SourceSections(b.sources[0]);
    assert b.Sections(0) == [];
  }

  /** Nothing fails, the preprocessor reads the wrong arguments, and the linker, whose arguments the file was left with,
      finds no file. */
  lemma SampleFindsNothing()
    ensures var b, fails := Sample(), (_: nat) => false;
      && WellFormed(b.Plan())
      && var t := |Before(b.Plan(), fails)|;
         && t < |Whole(b, fails)| && Whole(b, fails)[t] == Ran(b.Run(b.names.linker, b.LinkArguments()), false)
         && OnDisk(b.Redirected(b.Items()), Shared(b), Whole(b, fails)[..t]) == None
  {
    var fails := (_: nat) => false;
    SampleLong();
    SampleFiles();
    SampleStraight();
    BeforeUnfailed(Sample(), fails);
    hide *;
    LinkerFindsNothing(Sample(), fails, 0);
  }
}
