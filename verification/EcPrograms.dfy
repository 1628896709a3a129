/** Which programs a command file of ec.c gets run: the linker exactly if nothing has failed, and the conversion of its
    output also when it was not run. */
module EcPrograms {
  import opened Bytes
  import opened CommandFile
  import opened Driver
  import opened EcItems
  import opened EcRuns

  /** A program of this name is run. */
  ghost predicate RanProgram(es: seq<Event>, p: name) {
    exists i :: 0 <= i < |es| && IsRunOf(es[i], p)
  }

  predicate IsRunOf(e: Event, p: name) {
    e.Ran? && e.cmd.Exec? && e.cmd.program == p
  }

  /** No command is to run it. */
  ghost predicate Without(cs: seq<Command>, p: name) {
    forall i :: 0 <= i < |cs| ==> !Calls(cs[i], p)
  }

  predicate Calls(c: Command, p: name) {
    c.Exec? && c.program == p
  }

  lemma RanSum(x: seq<Event>, y: seq<Event>, p: name)
    ensures RanProgram(x + y, p) <==> RanProgram(x, p) || RanProgram(y, p)
  {
    if RanProgram(x, p) {
      var i :| 0 <= i < |x| && IsRunOf(x[i], p);
      assert (x + y)[i] == x[i];
    }
    if RanProgram(y, p) {
      var i :| 0 <= i < |y| && IsRunOf(y[i], p);
      assert (x + y)[|x| + i] == y[i];
    }
  }

  lemma RanFirst(e: Event, es: seq<Event>, p: name)
    ensures RanProgram([e] + es, p) <==> IsRunOf(e, p) || RanProgram(es, p)
  {
    RanSum([e], es, p);
    assert RanProgram([e], p) <==> IsRunOf([e][0], p);
  }

  lemma WithoutTail(cs: seq<Command>, p: name, k: nat)
    requires Without(cs, p) && k <= |cs|
    ensures Without(cs[k..], p)
  {
    forall i | 0 <= i < |cs[k..]| ensures !Calls(cs[k..][i], p) { assert cs[k..][i] == cs[k + i]; }
  }

  lemma WithoutSum(x: seq<Command>, y: seq<Command>, p: name)
    ensures Without(x + y, p) <==> Without(x, p) && Without(y, p)
  {
    if Without(x + y, p) {
      forall i | 0 <= i < |x| ensures !Calls(x[i], p) { assert (x + y)[i] == x[i]; }
      forall i | 0 <= i < |y| ensures !Calls(y[i], p) { assert (x + y)[|x| + i] == y[i]; }
    }
  }

  lemma NothingRuns(p: name)
    ensures !RanProgram([], p)
  {
  }

  lemma WithoutFirst(cs: seq<Command>, p: name)
    requires Without(cs, p) && cs != []
    ensures !Calls(cs[0], p)
  {
  }

  /** What no command is to run is not run. */
  lemma {:induction false} NotRun(cs: seq<Command>, p: name, s: State, n: nat, fails: nat -> bool)
    requires Without(cs, p)
    ensures !RanProgram(Perform(cs, s, n, fails), p)
    decreases |cs|, 1
  {
    hide RanProgram, Without, Perform, ToTrap;
    NothingRuns(p);
    RanFirst(Exited, [], p);
    PerformNone(s, n, fails);
    if cs != [] {
      WithoutTail(cs, p, 1);
      WithoutFirst(cs, p);
      if cs[0].Exec? {
        NotRunExec(cs, p, s, n, fails);
      } else if cs[0].IfErr? || cs[0].IfNerr? {
        var skipped := GuardStep(cs, s, n, fails);
        if skipped && |cs| > 1 {
          WithoutTail(cs[1..], p, 1);
          NotRun(cs[1..][1..], p, s, n, fails);
        } else {
          NotRun(cs[1..], p, s, n, fails);
        }
      } else {
        var e, t := PlainOrControl(cs, s, n, fails);
        RanEnd(e, p);
        NotRun(cs[1..], p, t, n, fails);
        RanSum(e, Perform(cs[1..], t, n, fails), p);
      }
    }
  }

  lemma RanEnd(es: seq<Event>, p: name)
    requires forall i :: 0 <= i < |es| ==> !es[i].Ran?
    ensures !RanProgram(es, p)
  {
  }

  lemma PerformNone(s: State, n: nat, fails: nat -> bool)
    ensures Perform([], s, n, fails) == [Exited] && [Exited] == [Exited] + []
  {
  }

  lemma GuardStep(cs: seq<Command>, s: State, n: nat, fails: nat -> bool) returns (skipped: bool)
    requires cs != [] && (cs[0].IfErr? || cs[0].IfNerr?)
    ensures Perform(cs, s, n, fails) == Perform(if skipped && |cs| > 1 then cs[1..][1..] else cs[1..], s, n, fails)
  {
    skipped := cs[0].IfNerr? == s.errors;
    if |cs| == 1 { assert Rest(cs[1..]) == cs[1..]; }
  }

  /** Any other command makes its own events, none of them a run, and what follows is performed or cut off. */
  lemma PlainOrControl(cs: seq<Command>, s: State, n: nat, fails: nat -> bool) returns (e: seq<Event>, t: State)
    requires cs != [] && !cs[0].Exec? && !cs[0].IfErr? && !cs[0].IfNerr?
    ensures forall i :: 0 <= i < |e| ==> !e[i].Ran?
    ensures Perform(cs, s, n, fails) == e || Perform(cs, s, n, fails) == e + Perform(cs[1..], t, n, fails)
  {
    var c := cs[0];
    e := if c.Exit? then [Exited] else if c.Print? then [Printed(c.text)] else if c.RmFile? then [Removed(c.file)]
         else if c.RmExit? then [Removed(c.file), Exited] else [];
    t := if c.IgnErr? then s.(act := Ignore) else if c.DefErr? then s.(act := Default)
         else if c.SkpErr? then s.(act := Skip) else s;
    assert [] + Perform(cs[1..], t, n, fails) == Perform(cs[1..], t, n, fails);
  }

  lemma {:induction false} NotRunExec(cs: seq<Command>, p: name, s: State, n: nat, fails: nat -> bool)
    requires Without(cs, p) && cs != [] && cs[0].Exec? && Without(cs[1..], p) && !Calls(cs[0], p)
    ensures !RanProgram(Perform(cs, s, n, fails), p)
    decreases |cs|, 0
  {
    hide RanProgram, Without, Perform, ToTrap;
    var more := cs[1..];
    var rest := ExecStep(cs, s, n, fails);
    RanFirst(Exited, [], p);
    NothingRuns(p);
    PerformNone(s, n, fails);
    if !fails(n) {
      NotRun(more, p, s, n + 1, fails);
    } else if s.act == Ignore {
      NotRun(more, p, s.(errors := true), n + 1, fails);
    } else if s.act == Skip && ToTrap(more).Some? {
      WithoutTail(more, p, ToTrap(more).value);
      NotRun(more[ToTrap(more).value..], p, s.(errors := true), n + 1, fails);
    }
    RanFirst(Ran(cs[0], fails(n)), rest, p);
  }

  lemma ExecStep(cs: seq<Command>, s: State, n: nat, fails: nat -> bool) returns (rest: seq<Event>)
    requires cs != [] && cs[0].Exec?
    ensures Perform(cs, s, n, fails) == [Ran(cs[0], fails(n))] + rest
    ensures rest == if !fails(n) then Perform(cs[1..], s, n + 1, fails)
      else if s.act == Ignore then Perform(cs[1..], s.(errors := true), n + 1, fails)
      else if s.act == Skip && ToTrap(cs[1..]).Some?
        then Perform(cs[1..][ToTrap(cs[1..]).value..], s.(errors := true), n + 1, fails)
      else [Exited]
  {
    rest := Perform(cs, s, n, fails)[1..];
  }

  // ---------------------------------------------------------------- sections

  /** The same within a section. */
  lemma {:induction false} NotRunSection(cs: seq<Command>, p: name, n: nat, fails: nat -> bool)
    requires Without(cs, p) && Section(cs)
    ensures !RanProgram(SectionEvents(cs, n, fails), p)
    decreases |cs|
  {
    hide RanProgram, Without;
    NothingRuns(p);
    if cs != [] {
      WithoutTail(cs, p, 1);
      WithoutFirst(cs, p);
      var failed := cs[0].Exec? && fails(n);
      var m := n + Count(cs[0]);
      SectionStep(cs, n, fails);
      if !failed { NotRunSection(cs[1..], p, m, fails); }
      RanFirst(EventOf(cs[0], failed), if failed then [] else SectionEvents(cs[1..], m, fails), p);
    }
  }

  lemma SectionStep(cs: seq<Command>, n: nat, fails: nat -> bool)
    requires cs != [] && Section(cs)
    ensures Plain(cs[0]) && Section(cs[1..])
    ensures var failed := cs[0].Exec? && fails(n);
      SectionEvents(cs, n, fails)
      == [EventOf(cs[0], failed)] + if failed then [] else SectionEvents(cs[1..], n + Count(cs[0]), fails)
  {
    assert Plain(cs[0]);
  }

  lemma {:induction false} NotRunSections(sections: seq<seq<Command>>, p: name, n: nat, fails: nat -> bool)
    requires AllSections(sections) && forall i :: 0 <= i < |sections| ==> Without(sections[i], p)
    ensures !RanProgram(SectionsEvents(sections, n, fails), p)
    decreases |sections|
  {
    hide RanProgram, Without, SectionEvents, Section;
    NothingRuns(p);
    if sections != [] {
      var es := SectionEvents(sections[0], n, fails);
      NotRunSection(sections[0], p, n, fails);
      NotRunSections(sections[1..], p, n + Runs(es), fails);
      RanSum(es, SectionsEvents(sections[1..], n + Runs(es), fails), p);
    }
  }

  lemma {:induction false} QuietNotRun(cs: seq<Command>, p: name)
    requires AllQuiet(cs)
    ensures !RanProgram(QuietEvents(cs), p)
  {
    hide RanProgram;
    NothingRuns(p);
    if cs != [] {
      assert Quiet(cs[0]);
      QuietNotRun(cs[1..], p);
      RanFirst(EventOf(cs[0], false), QuietEvents(cs[1..]), p);
    }
  }

  // ---------------------------------------------------------------- items

  function ProgramOf(b: Build, path: string): name {
    Program(b.setfcb, path)
  }

  ghost predicate ItemsWithout(b: Build, xs: seq<Item>, p: name) {
    forall i :: 0 <= i < |xs| ==> ItemWithout(b, xs[i], p)
  }

  predicate ItemWithout(b: Build, x: Item, p: name) {
    (x.Do? ==> ProgramOf(b, x.path) != p) && (x.Mark? ==> !x.c.Exec?)
  }

  lemma {:induction false} ExpandedWithout(b: Build, xs: seq<Item>, p: name)
    requires ItemsWithout(b, xs, p)
    ensures Without(b.Expanded(xs), p)
  {
    hide Without, ItemWithout;
    if xs == [] {
      NoneExpanded(b);
      NoCalls(p);
    } else {
      ExpandedWithout(b, xs[..|xs| - 1], p);
      ExpandWithout(b, xs[|xs| - 1], p);
      WithoutSum(b.Expanded(xs[..|xs| - 1]), b.Expand(xs[|xs| - 1]), p);
    }
  }

  lemma NoCalls(p: name)
    ensures Without([], p)
  {
  }

  lemma ExpandWithout(b: Build, x: Item, p: name)
    requires ItemWithout(b, x, p)
    ensures Without(b.Expand(x), p)
  {
  }

  lemma ErasureWithout(b: Build, file: string, p: name)
    ensures Without(b.Erasure(file), p) && Without(b.Echoed(file), p)
  {
  }

  /** As control blocks the programs for the source files, the linker, the conversion and the cross-referencer are all
      told apart. */
  predicate Apart(b: Build) {
    var n := b.names;
    var link, conv := ProgramOf(b, n.linker), ProgramOf(b, n.objto);
    link != conv && ForSources(b, link) && ForSources(b, conv) && ProgramOf(b, n.cref) != link && ProgramOf(b, n.cref) != conv
  }

  /** `p` is none of the programs that source files need. */
  predicate ForSources(b: Build, p: name) {
    var n := b.names;
    && ProgramOf(b, n.cpp) != p && ProgramOf(b, n.pass1) != p && ProgramOf(b, n.cgen) != p && ProgramOf(b, n.optim) != p
    && ProgramOf(b, n.assem) != p && ProgramOf(b, n.symtoas) != p
  }

  lemma SourceWithout(b: Build, s: Source, p: name)
    requires ForSources(b, p)
    ensures forall i :: 0 <= i < |b.SourceSections(s)| ==> ItemsWithout(b, b.SourceSections(s)[i], p)
  {
    hide ProgramOf;
    CompileWithout(b, s, p);
    AssembleWithout(b, s, s.path, p);
    AssembleWithout(b, s, b.names.tmpf5, p);
    hide b.CompileItems, b.AssembleItems, b.Announcement;
  }

  lemma CompileWithout(b: Build, s: Source, p: name)
    requires ForSources(b, p)
    ensures ItemsWithout(b, b.Announcement(s) + b.CompileItems(s), p)
  {
    hide ProgramOf;
  }

  lemma AssembleWithout(b: Build, s: Source, input: string, p: name)
    requires ForSources(b, p)
    ensures ItemsWithout(b, b.AssembleItems(s, input), p)
  {
    hide ProgramOf;
  }

  lemma {:induction false} SectionsWithout(b: Build, p: name, n: nat)
    requires ForSources(b, p) && n <= |b.sources|
    ensures forall i :: 0 <= i < |b.Sections(n)| ==> ItemsWithout(b, b.Sections(n)[i], p)
  {
    hide *;
    if n == 0 {
      NoneYet(b);
    } else {
      SectionsWithout(b, p, n - 1);
      SourceWithout(b, b.sources[n - 1], p);
      SectionsStep(b, n);
    }
  }

  lemma PlanWithout(b: Build, p: name)
    requires ForSources(b, p)
    ensures forall i :: 0 <= i < |b.Plan().sections| ==> Without(b.Plan().sections[i], p)
  {
    SectionsWithout(b, p, |b.sources|);
    PlanEnds(b);
    hide *;
    var secs := b.Sections(|b.sources|);
    forall i | 0 <= i < |secs| ensures Without(b.SectionCommands(secs)[i], p) {
      ExpandedWithout(b, secs[i], p);
    }
  }

  /** Before the link step only programs for the source files are run. */
  lemma BeforeWithout(b: Build, p: name, fails: nat -> bool)
    requires ForSources(b, p) && WellFormed(b.Plan())
    ensures !RanProgram(Before(b.Plan(), fails), p)
  {
    PlanWithout(b, p);
    hide RanProgram, ForSources, Without;
    hide b.Plan;
    NotRunSections(b.Plan().sections, p, 0, fails);
    QuietNotRun(b.Plan().clean, p);
    RanSum(SectionsEvents(b.Plan().sections, 0, fails), QuietEvents(b.Plan().clean), p);
  }

  // ---------------------------------------------------------------- the whole run

  /** What is done when the command file is carried out. */
  function Whole(b: Build, fails: nat -> bool): seq<Event> {
    Perform(Commands(b.Plan()), CommandFile.State.State(false, Default), 0, fails)
  }

  function Linker(b: Build): name {
    ProgramOf(b, b.names.linker)
  }

  function Converter(b: Build): name {
    ProgramOf(b, b.names.objto)
  }

  /** The linker is run exactly if one is wanted and nothing before it has failed. */
  lemma LinkerRuns(b: Build, fails: nat -> bool)
    requires Apart(b)
    ensures WellFormed(b.Plan())
    ensures RanProgram(Whole(b, fails), Linker(b)) <==> !b.opt.keep && !AnyFailed(Before(b.Plan(), fails))
  {
    PlanWellFormed(b);
    PlanEnds(b);
    LinkerApart(b);
    BeforeWithout(b, Linker(b), fails);
    hide *;
    hide Whole;
    var before := Before(b.Plan(), fails);
    if b.opt.keep {
      KeptWithout(b, Linker(b));
      WholeNotRun(b, Linker(b), fails);
    } else {
      var after := ScriptRuns(b.Plan(), fails);
      WholeIs(b, fails);
      RanSum(before, after, Linker(b));
      if AnyFailed(before) {
        OthersWithout(b, Linker(b));
        NotRun(b.Others() + [Trap] + Closing(b.Plan().last, b.Plan().self), Linker(b), CommandFile.State.State(true, Skip), Runs(before), fails);
      } else {
        RunCalls(b, b.names.linker, b.LinkArguments());
        OneRan(after, 0, Linker(b));
      }
    }
  }

  lemma LinkerApart(b: Build)
    requires Apart(b)
    ensures ForSources(b, Linker(b)) && ProgramOf(b, b.names.objto) != Linker(b) && ProgramOf(b, b.names.cref) != Linker(b)
    ensures ForSources(b, Converter(b)) && ProgramOf(b, b.names.linker) != Converter(b) && ProgramOf(b, b.names.cref) != Converter(b)
  {
    hide ForSources, ProgramOf;
  }

  lemma WholeIs(b: Build, fails: nat -> bool)
    ensures Whole(b, fails) == Perform(Commands(b.Plan()), CommandFile.State.State(false, Default), 0, fails)
  {
  }

  lemma OneRan(es: seq<Event>, i: nat, p: name)
    requires i < |es| && es[i].Ran? && Calls(es[i].cmd, p)
    ensures RanProgram(es, p)
  {
    assert IsRunOf(es[i], p);
  }

  lemma RunCalls(b: Build, path: string, vec: vector)
    ensures Calls(b.Run(path, vec), ProgramOf(b, path))
  {
  }

  lemma WholeNotRun(b: Build, p: name, fails: nat -> bool)
    requires Without(b.Expanded(b.Items()), p)
    ensures !RanProgram(Whole(b, fails), p)
  {
    ItemsPlan(b);
    WholeIs(b, fails);
    hide *;
    NotRun(Commands(b.Plan()), p, CommandFile.State.State(false, Default), 0, fails);
  }

  /** The commands after the linker do not run it. */
  lemma OthersWithout(b: Build, p: name)
    requires ProgramOf(b, b.names.objto) != p && ProgramOf(b, b.names.cref) != p
    ensures Without(b.Others() + [Trap] + Closing(b.Plan().last, b.Plan().self), p)
  {
    AfterWithout(b, p);
    CrossWithout(b, p);
    PartsAre(b);
    ClosingWithout(b, p);
    hide *;
    var redir := if Long(b.LinkArguments()) then b.Erasure(b.names.redname) else [];
    ErasureWithout(b, b.names.redname, p);
    NoCalls(p);
    ExpandedWithout(b, b.AfterLink(), p);
    ExpandedWithout(b, b.CrossItems(), p);
    WithoutSum(redir, b.Expanded(b.AfterLink()), p);
    WithoutSum(redir + b.Expanded(b.AfterLink()), b.Expanded(b.CrossItems()), p);
    WithoutSum([], b.Expanded(b.CrossItems()), p);
    WithoutSum(b.Others(), [Trap] + Closing(b.Plan().last, b.Plan().self), p);
    Bracketed(b.Others(), [Trap], Closing(b.Plan().last, b.Plan().self));
  }

  lemma ClosingWithout(b: Build, p: name)
    ensures Without([Trap] + Closing(b.Plan().last, b.Plan().self), p)
  {
    hide *;
    ClosingIs(b);
    EndsWithout(b, p);
    ItemsJoined(b, [Mark(Trap)], [Leave(b.names.execmd)], p);
    ExpandedWithout(b, [Mark(Trap)] + [Leave(b.names.execmd)], p);
  }

  lemma AfterWithout(b: Build, p: name)
    requires ProgramOf(b, b.names.objto) != p || !b.opt.reloc
    ensures ItemsWithout(b, b.AfterLink(), p)
  {
    hide ProgramOf;
  }

  lemma CrossWithout(b: Build, p: name)
    requires ProgramOf(b, b.names.cref) != p
    ensures ItemsWithout(b, b.CrossItems(), p)
  {
    hide ProgramOf;
  }

  /** With nothing to link neither the linker nor the conversion is in the command file; without relocation
      the conversion is not. */
  lemma KeptWithout(b: Build, p: name)
    requires ForSources(b, p) && ProgramOf(b, b.names.cref) != p
    requires b.opt.keep || (ProgramOf(b, b.names.linker) != p && !b.opt.reloc)
    ensures Without(b.Expanded(b.Items()), p)
  {
    CrossWithout(b, p);
    LinkItemsWithout(b, p);
    SectionsWithout(b, p, |b.sources|);
    EndsWithout(b, p);
    b.ItemsAre();
    hide *;
    TrappedWithout(b, b.Sections(|b.sources|), p);
    ItemsJoined(b, b.Opening(), Trapped(b.Sections(|b.sources|)), p);
    ItemsJoined(b, b.Opening() + Trapped(b.Sections(|b.sources|)), b.CleanItems(), p);
    ItemsJoined(b, b.Opening() + Trapped(b.Sections(|b.sources|)) + b.CleanItems(), b.LinkItems(), p);
    ItemsJoined(b, b.Opening() + Trapped(b.Sections(|b.sources|)) + b.CleanItems() + b.LinkItems(), b.CrossItems(), p);
    var most := b.Opening() + Trapped(b.Sections(|b.sources|)) + b.CleanItems() + b.LinkItems() + b.CrossItems();
    ItemsJoined(b, most, [Mark(Trap)], p);
    ItemsJoined(b, most + [Mark(Trap)], [Leave(b.names.execmd)], p);
    ExpandedWithout(b, b.Items(), p);
  }

  lemma ItemsJoined(b: Build, xs: seq<Item>, ys: seq<Item>, p: name)
    requires ItemsWithout(b, xs, p) && ItemsWithout(b, ys, p)
    ensures ItemsWithout(b, xs + ys, p)
  {
    hide ItemWithout;
  }

  lemma LinkItemsWithout(b: Build, p: name)
    requires b.opt.keep || (ProgramOf(b, b.names.linker) != p && !b.opt.reloc)
    ensures ItemsWithout(b, b.LinkItems(), p)
  {
    hide ProgramOf;
  }

  lemma EndsWithout(b: Build, p: name)
    ensures ItemsWithout(b, b.Opening(), p) && ItemsWithout(b, b.CleanItems(), p)
    ensures ItemsWithout(b, [Mark(Trap)], p) && ItemsWithout(b, [Leave(b.names.execmd)], p)
  {
    hide ProgramOf;
  }

  lemma {:induction false} TrappedWithout(b: Build, sections: seq<seq<Item>>, p: name)
    requires forall i :: 0 <= i < |sections| ==> ItemsWithout(b, sections[i], p)
    ensures ItemsWithout(b, Trapped(sections), p)
  {
    hide ItemsWithout;
    if sections == [] {
      NoItems(b, p);
    } else {
      var sec := sections[|sections| - 1];
      TrappedWithout(b, sections[..|sections| - 1], p);
      EndsWithout(b, p);
      ItemsJoined(b, sec, [Mark(Trap)], p);
      ItemsJoined(b, Trapped(sections[..|sections| - 1]), sec + [Mark(Trap)], p);
    }
  }

  lemma NoItems(b: Build, p: name)
    ensures ItemsWithout(b, [], p)
  {
  }

  /** The conversion of the linker's output is run without the linker exactly if the program is to be linked and
      relocatable and something has failed before. */
  lemma ConvertedExact(b: Build, fails: nat -> bool)
    requires Apart(b)
    ensures WellFormed(b.Plan())
    ensures RanProgram(Whole(b, fails), Converter(b)) && !RanProgram(Whole(b, fails), Linker(b))
      <==> b.opt.reloc && !b.opt.keep && AnyFailed(Before(b.Plan(), fails))
  {
    LinkerRuns(b, fails);
    LinkerApart(b);
    hide *;
    hide Whole;
    if b.opt.keep || !b.opt.reloc {
      KeptWithout(b, Converter(b));
      WholeNotRun(b, Converter(b), fails);
    } else if AnyFailed(Before(b.Plan(), fails)) {
      ConversionRuns(b, fails);
    }
  }

  lemma ConversionRuns(b: Build, fails: nat -> bool)
    requires WellFormed(b.Plan()) && !b.opt.keep && b.opt.reloc && AnyFailed(Before(b.Plan(), fails))
    ensures RanProgram(Whole(b, fails), Converter(b))
  {
    PlanEnds(b);
    WholeIs(b, fails);
    ConverterCalled(b);
    hide *;
    var before := Before(b.Plan(), fails);
    var after := ScriptRuns(b.Plan(), fails);
    ConvertedAnyway(b, CommandFile.State.State(true, Skip), Runs(before), fails);
    var i :| 0 <= i < |after| && after[i] == Ran(b.RunOf(b.ObjtoItem()), fails(Runs(before)));
    OneRan(after, i, Converter(b));
    RanSum(before, after, Converter(b));
  }

  lemma ConverterCalled(b: Build)
    ensures Calls(b.RunOf(b.ObjtoItem()), Converter(b))
  {
  }
}
