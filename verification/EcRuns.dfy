/** What ec.c writes is a script of the form the laws of scripts are about: the sources are started, and the end is reached,
    whatever fails. */
module EcRuns {
  import opened Bytes
  import opened CommandFile
  import opened Driver
  import opened EcItems

  // ---------------------------------------------------------------- the items as a script

  lemma ExpandedMore(b: Build, xs: seq<Item>, x: Item)
    ensures b.Expanded(xs + [x]) == b.Expanded(xs) + b.Expand(x)
  {
    assert (xs + [x])[..|xs + [x]| - 1] == xs;
  }

  lemma NoneExpanded(b: Build)
    ensures b.Expanded([]) == []
  {
  }

  lemma {:induction false} ExpandedSum(b: Build, xs: seq<Item>, ys: seq<Item>)
    ensures b.Expanded(xs + ys) == b.Expanded(xs) + b.Expanded(ys)
  {
    hide *;
    NoneExpanded(b);
    if ys == [] {
      assert xs + ys == xs;
    } else {
      var front, y := ys[..|ys| - 1], ys[|ys| - 1];
      ExpandedSum(b, xs, front);
      ExpandedMore(b, front, y);
      ExpandedMore(b, xs + front, y);
      assert ys == front + [y] && xs + ys == xs + front + [y];
    }
  }

  lemma ExpandedOne(b: Build, x: Item)
    ensures b.Expanded([x]) == b.Expand(x)
  {
    ExpandedMore(b, [], x);
    assert [] + [x] == [x];
  }

  predicate Working(x: Item) {
    x.Do? || x.Say?
  }

  predicate Tidying(x: Item) {
    x.Erase? || x.Say?
  }

  predicate Going(x: Item) {
    x.Do? || x.Say? || x.Erase? || x == Mark(IfNerr)
  }

  lemma {:induction false} WorkingSection(b: Build, xs: seq<Item>)
    requires forall i :: 0 <= i < |xs| ==> Working(xs[i])
    ensures Section(b.Expanded(xs))
  {
    if xs != [] {
      WorkingSection(b, xs[..|xs| - 1]);
      assert Working(xs[|xs| - 1]);
      assert Section(b.Expand(xs[|xs| - 1]));
    }
  }

  lemma {:induction false} TidyingQuiet(b: Build, xs: seq<Item>)
    requires forall i :: 0 <= i < |xs| ==> Tidying(xs[i])
    ensures AllQuiet(b.Expanded(xs))
  {
    if xs != [] {
      TidyingQuiet(b, xs[..|xs| - 1]);
      assert Tidying(xs[|xs| - 1]);
      assert AllQuiet(b.Expand(xs[|xs| - 1]));
    }
  }

  lemma {:induction false} GoingTame(b: Build, xs: seq<Item>)
    requires forall i :: 0 <= i < |xs| ==> Going(xs[i])
    ensures AllTame(b.Expanded(xs))
  {
    if xs != [] {
      GoingTame(b, xs[..|xs| - 1]);
      assert Going(xs[|xs| - 1]);
      assert AllTame(b.Expand(xs[|xs| - 1]));
    }
  }

  lemma {:induction false} JoinedMore(sections: seq<seq<Command>>, sec: seq<Command>)
    ensures Joined(sections + [sec]) == Joined(sections) + (sec + [Trap])
  {
    if sections == [] {
      assert sections + [sec] == [sec];
      assert [sec][1..] == [];
      assert sec + [Trap] + [] == sec + [Trap];
    } else {
      JoinedMore(sections[1..], sec);
      assert (sections + [sec])[1..] == sections[1..] + [sec];
      assert sections[0] + [Trap] + (Joined(sections[1..]) + (sec + [Trap])) == Joined(sections) + (sec + [Trap]);
    }
  }

  lemma {:induction false} TrappedJoined(b: Build, sections: seq<seq<Item>>)
    ensures b.Expanded(Trapped(sections)) == Joined(b.SectionCommands(sections))
  {
    hide *;
    if sections == [] {
      NoneJoined(b);
    } else {
      var front, sec := sections[..|sections| - 1], sections[|sections| - 1];
      TrappedJoined(b, front);
      TrappedStep(sections);
      TrapExpanded(b, Trapped(front), sec);
      JoinedMore(b.SectionCommands(front), b.Expanded(sec));
      assert b.SectionCommands(sections) == b.SectionCommands(front) + [b.Expanded(sec)];
    }
  }

  lemma NoneJoined(b: Build)
    ensures b.Expanded(Trapped([])) == Joined(b.SectionCommands([]))
  {
  }

  lemma TrappedStep(sections: seq<seq<Item>>)
    requires sections != []
    ensures Trapped(sections) == Trapped(sections[..|sections| - 1]) + (sections[|sections| - 1] + [Mark(Trap)])
  {
  }

  lemma TrapExpanded(b: Build, front: seq<Item>, sec: seq<Item>)
    ensures b.Expanded(front + (sec + [Mark(Trap)])) == b.Expanded(front) + (b.Expanded(sec) + [Trap])
  {
    TrapItself(b);
    hide *;
    ExpandedSum(b, front, sec + [Mark(Trap)]);
    ExpandedMore(b, sec, Mark(Trap));
  }

  lemma TrapItself(b: Build)
    ensures b.Expand(Mark(Trap)) == [Trap]
  {
  }

  /** What doit writes is the script. */
  lemma ItemsPlan(b: Build)
    ensures b.Expanded(b.Items()) == Commands(b.Plan())
  {
    hide *;
    b.ItemsAre();
    CommandsAre(b);
    var opening, body := b.Opening(), Trapped(b.Sections(|b.sources|));
    ExpandedSix(b, opening, body, b.CleanItems(), b.LinkItems(), b.CrossItems(), [Mark(Trap)] + [Leave(b.names.execmd)]);
    OpeningIs(b);
    TrappedJoined(b, b.Sections(|b.sources|));
    LinkingIs(b);
    ClosingIs(b);
    Regrouped(opening, body, b.CleanItems(), b.LinkItems(), b.CrossItems(), Mark(Trap), Leave(b.names.execmd));
    Rearranged(b.Expanded(opening), b.Expanded(body), b.Expanded(b.CleanItems()), Linking(b.Plan()), b.Expanded(b.LinkItems()),
               b.Expanded(b.CrossItems()), b.Others(), [Trap] + Closing(b.Plan().last, b.Plan().self));
  }

  lemma Regrouped(p: seq<Item>, q: seq<Item>, r: seq<Item>, s: seq<Item>, t: seq<Item>, x: Item, y: Item)
    ensures p + q + r + s + t + [x] + [y] == p + q + r + s + t + ([x] + [y])
  {
  }

  lemma Rearranged(o: seq<Command>, j: seq<Command>, c: seq<Command>, l: seq<Command>, link: seq<Command>, x: seq<Command>,
                   others: seq<Command>, e: seq<Command>)
    requires link + x == l + others
    ensures o + j + c + link + x + e == o + j + (c + (l + others + e))
  {
    assert o + j + c + link + x + e == o + j + (c + ((link + x) + e));
  }

  lemma ExpandedSix(b: Build, p: seq<Item>, q: seq<Item>, r: seq<Item>, s: seq<Item>, t: seq<Item>, u: seq<Item>)
    ensures b.Expanded(p + q + r + s + t + u)
      == b.Expanded(p) + b.Expanded(q) + b.Expanded(r) + b.Expanded(s) + b.Expanded(t) + b.Expanded(u)
  {
    hide *;
    ExpandedSum(b, p, q);
    ExpandedSum(b, p + q, r);
    ExpandedSum(b, p + q + r, s);
    ExpandedSum(b, p + q + r + s, t);
    ExpandedSum(b, p + q + r + s + t, u);
  }

  lemma OpeningIs(b: Build)
    ensures b.Expanded(b.Opening()) == [SkpErr] + (if b.opt.verbose then [Echo] else [])
  {
    ExpandedOne(b, Mark(SkpErr));
    if b.opt.verbose {
      ExpandedOne(b, Mark(Echo));
      ExpandedSum(b, [Mark(SkpErr)], [Mark(Echo)]);
    }
  }

  lemma CommandsAre(b: Build)
    ensures Commands(b.Plan()) == [SkpErr] + (if b.opt.verbose then [Echo] else []) + Joined(b.SectionCommands(b.Sections(|b.sources|)))
      + (b.Expanded(b.CleanItems()) + (Linking(b.Plan()) + b.Others() + ([Trap] + Closing(b.Plan().last, b.Plan().self))))
  {
    hide Joined, Closing, Linking;
    var p := b.Plan();
    assert Finish(p) == Linking(p) + p.others + ([Trap] + Closing(p.last, p.self));
  }

  lemma ClosingIs(b: Build)
    ensures b.Expanded([Mark(Trap)] + [Leave(b.names.execmd)]) == [Trap] + Closing(b.Plan().last, b.Plan().self)
  {
    ExpandedSum(b, [Mark(Trap)], [Leave(b.names.execmd)]);
    ExpandedOne(b, Mark(Trap));
    ExpandedOne(b, Leave(b.names.execmd));
  }

  lemma LinkingIs(b: Build)
    ensures b.Expanded(b.LinkItems()) + b.Expanded(b.CrossItems()) == Linking(b.Plan()) + b.Others()
  {
    PartsAre(b);
    b.LinkIs();
    hide *;
    if !b.opt.keep {
      var linker := Do(b.names.linker, b.LinkArguments());
      ExpandedSum(b, [Mark(IfNerr)] + [linker], b.AfterLink());
      ExpandedSum(b, [Mark(IfNerr)], [linker]);
      ExpandedOne(b, Mark(IfNerr));
      ExpandedOne(b, linker);
    } else {
      assert b.LinkItems() == [];
    }
  }

  lemma PartsAre(b: Build)
    ensures b.Expanded([]) == [] && b.Expand(Mark(IfNerr)) == [IfNerr]
    ensures Linking(b.Plan()) == if b.opt.keep then [] else [IfNerr, b.Run(b.names.linker, b.LinkArguments())]
    ensures b.opt.keep ==> b.Others() == [] + b.Expanded(b.CrossItems())
    ensures !b.opt.keep ==> (
      b.Others() == (if Long(b.LinkArguments()) then b.Erasure(b.names.redname) else [])
        + b.Expanded(b.AfterLink()) + b.Expanded(b.CrossItems()))
    ensures b.Expand(Do(b.names.linker, b.LinkArguments()))
      == [b.Run(b.names.linker, b.LinkArguments())] + (if Long(b.LinkArguments()) then b.Erasure(b.names.redname) else [])
  {
  }

  // ---------------------------------------------------------------- the script is as it should be

  lemma {:induction false} SectionsWorking(b: Build, n: nat)
    requires n <= |b.sources|
    ensures AllWorking(b.Sections(n))
  {
    hide *;
    if n == 0 {
      assert b.Sections(n) == [] by { NoneYet(b); }
      NoneWorking();
    } else {
      SectionsWorking(b, n - 1);
      SourceWorking(b, b.sources[n - 1]);
      SectionsStep(b, n);
      BothWorking(b.Sections(n - 1), b.SourceSections(b.sources[n - 1]));
    }
  }

  ghost predicate AllWorking(secs: seq<seq<Item>>) {
    forall i, k :: 0 <= i < |secs| && 0 <= k < |secs[i]| ==> Working(secs[i][k])
  }

  lemma NoneYet(b: Build)
    ensures b.Sections(0) == []
  {
  }

  lemma NoneWorking()
    ensures AllWorking([])
  {
  }

  lemma BothWorking(x: seq<seq<Item>>, y: seq<seq<Item>>)
    requires AllWorking(x) && AllWorking(y)
    ensures AllWorking(x + y)
  {
  }

  lemma SourceWorking(b: Build, s: Source)
    ensures AllWorking(b.SourceSections(s))
  {
    CompileWorking(b, s);
    AssembleWorking(b, s, s.path);
    AssembleWorking(b, s, b.names.tmpf5);
    hide b.CompileItems, b.AssembleItems, b.Announcement;
  }

  lemma CompileWorking(b: Build, s: Source)
    ensures forall k :: 0 <= k < |b.Announcement(s)| ==> Working(b.Announcement(s)[k])
    ensures forall k :: 0 <= k < |b.CompileItems(s)| ==> Working(b.CompileItems(s)[k])
  {
  }

  lemma AssembleWorking(b: Build, s: Source, input: string)
    ensures forall k :: 0 <= k < |b.AssembleItems(s, input)| ==> Working(b.AssembleItems(s, input)[k])
  {
  }

  lemma PlanSections(b: Build)
    ensures AllSections(b.SectionCommands(b.Sections(|b.sources|)))
  {
    hide *;
    var secs := b.Sections(|b.sources|);
    SectionsWorking(b, |b.sources|);
    forall i | 0 <= i < |secs| ensures Section(b.SectionCommands(secs)[i]) {
      OneWorking(secs, i);
      WorkingSection(b, secs[i]);
    }
    ManySections(b.SectionCommands(secs));
  }

  lemma OneWorking(secs: seq<seq<Item>>, i: nat)
    requires AllWorking(secs) && i < |secs|
    ensures forall k :: 0 <= k < |secs[i]| ==> Working(secs[i][k])
  {
  }

  lemma ManySections(sections: seq<seq<Command>>)
    requires forall i :: 0 <= i < |sections| ==> Section(sections[i])
    ensures AllSections(sections)
  {
  }

  lemma PlanWellFormed(b: Build)
    ensures WellFormed(b.Plan())
  {
    PlanSections(b);
    TidyingQuiet(b, b.CleanItems());
    OthersTame(b);
    hide AllSections, AllTame;
  }

  lemma OthersTame(b: Build)
    ensures AllTame(b.Others())
  {
    PartsTame(b);
    PartsAre(b);
    hide *;
    var redir := if Long(b.LinkArguments()) then b.Erasure(b.names.redname) else [];
    TameSum(redir, b.Expanded(b.AfterLink()));
    TameSum(redir + b.Expanded(b.AfterLink()), b.Expanded(b.CrossItems()));
    TameSum([], b.Expanded(b.CrossItems()));
  }

  lemma PartsTame(b: Build)
    ensures AllTame(b.Erasure(b.names.redname)) && AllTame(b.Expanded(b.AfterLink())) && AllTame(b.Expanded(b.CrossItems()))
  {
    ErasureTame(b);
    PartsGoing(b);
    hide *;
    GoingTame(b, b.AfterLink());
    GoingTame(b, b.CrossItems());
  }

  lemma ErasureTame(b: Build)
    ensures AllTame(b.Erasure(b.names.redname))
  {
    hide Ascii;
  }

  lemma PartsGoing(b: Build)
    ensures forall i :: 0 <= i < |b.AfterLink()| ==> Going(b.AfterLink()[i])
    ensures forall i :: 0 <= i < |b.CrossItems()| ==> Going(b.CrossItems()[i])
  {
  }

  lemma TameSum(x: seq<Command>, y: seq<Command>)
    requires AllTame(y) && (x == [] || AllTame(x))
    ensures AllTame(x + y)
  {
  }

  // ---------------------------------------------------------------- what is run for each source file

  /** The program a source file starts with. */
  function Starter(b: Build, s: Source): (x: Item)
    requires !s.kind.SourceOther?
    ensures x.Do?
  {
    match s.kind
    case SourceC => b.Preprocessing(s)
    case SourceAs => b.Assembling(s, s.path)
    case SourceSym => if b.opt.overlay then Do(b.names.symtoas, [s.path, b.names.tmpf5]) else b.Assembling(s, b.names.tmpf5)
  }

  lemma {:induction false} FirstOf(a: seq<Command>, c: seq<Command>)
    ensures FirstProgram(a + c) == (if FirstProgram(a).Some? then FirstProgram(a) else FirstProgram(c))
  {
    if a == [] {
      assert a + c == c;
    } else {
      FirstOf(a[1..], c);
      assert (a + c)[1..] == a[1..] + c;
    }
  }

  lemma AnnouncedFirst(b: Build, s: Source, path: string, vec: vector, more: seq<Item>)
    ensures FirstProgram(b.Expanded(b.Announcement(s) + ([Do(path, vec)] + more))) == Some(b.Run(path, vec))
  {
    AnnouncementQuiet(b, s);
    DoneFirst(b, path, vec);
    hide *;
    var x, front := Do(path, vec), b.Announcement(s);
    ExpandedSum(b, front, [x] + more);
    ExpandedSum(b, [x], more);
    ExpandedOne(b, x);
    FirstOf(b.Expanded(front), b.Expand(x) + b.Expanded(more));
    FirstOf(b.Expand(x), b.Expanded(more));
  }

  lemma AnnouncementQuiet(b: Build, s: Source)
    ensures FirstProgram(b.Expanded(b.Announcement(s))) == None
  {
    hide Ascii;
    if |b.sources| > 1 {
      ExpandedOne(b, Say(s.path));
    }
  }

  lemma DoneFirst(b: Build, path: string, vec: vector)
    ensures FirstProgram(b.Expand(Do(path, vec))) == Some(b.Run(path, vec))
  {
    hide b.Erasure;
  }

  /** Each source file has a section that begins with it. */
  lemma SourceBegins(b: Build, s: Source)
    requires !s.kind.SourceOther?
    ensures FirstProgram(b.Expanded(b.SourceSections(s)[0])) == Some(b.RunOf(Starter(b, s)))
  {
    var x := Starter(b, s);
    if s.kind.SourceC? {
      var more := [b.FirstPassing()] + b.CodeItems(s);
      assert b.SourceSections(s)[0] == b.Announcement(s) + ([x] + more);
      hide *;
      AnnouncedFirst(b, s, x.path, x.vec, more);
      RunOfIs(b, x);
    } else if s.kind.SourceSym? && b.opt.overlay {
      assert b.SourceSections(s)[0] == [x];
      hide *;
      ExpandedOne(b, x);
      DoneFirst(b, x.path, x.vec);
      RunOfIs(b, x);
    } else {
      assert b.SourceSections(s)[0] == b.Announcement(s) + ([x] + []);
      hide *;
      AnnouncedFirst(b, s, x.path, x.vec, []);
      RunOfIs(b, x);
    }
  }

  lemma RunOfIs(b: Build, x: Item)
    requires x.Do?
    ensures b.RunOf(x) == b.Run(x.path, x.vec)
  {
  }

  lemma {:induction false} SourcePlace(b: Build, n: nat, k: nat) returns (i: nat)
    requires k < n <= |b.sources|
    ensures i < |b.Sections(n)| && b.Sections(n)[i] == b.SourceSections(b.sources[k])[0]
    decreases n
  {
    hide *;
    SectionsStep(b, n);
    if k == n - 1 {
      i := |b.Sections(n - 1)|;
    } else {
      i := SourcePlace(b, n - 1, k);
    }
  }

  lemma SectionsStep(b: Build, n: nat)
    requires 0 < n <= |b.sources|
    ensures b.Sections(n) == b.Sections(n - 1) + b.SourceSections(b.sources[n - 1])
  {
  }

  predicate WasRun(c: Command, es: seq<Event>) {
    Ran(c, false) in es || Ran(c, true) in es
  }

  /** Whatever fails, every source file is started. */
  lemma AllStart(b: Build, k: nat, fails: nat -> bool)
    requires WellFormed(b.Plan()) && k < |b.sources| && !b.sources[k].kind.SourceOther?
    ensures WasRun(b.RunOf(Starter(b, b.sources[k])), Before(b.Plan(), fails))
  {
    var i := SourcePlace(b, |b.sources|, k);
    SourceBegins(b, b.sources[k]);
    hide *;
    StartedSection(b, i, fails);
  }

  lemma StartedSection(b: Build, i: nat, fails: nat -> bool)
    requires WellFormed(b.Plan()) && i < |b.Sections(|b.sources|)| && FirstProgram(b.Expanded(b.Sections(|b.sources|)[i])).Some?
    ensures WasRun(FirstProgram(b.Expanded(b.Sections(|b.sources|)[i])).value, Before(b.Plan(), fails))
  {
    hide Starter, SectionsEvents, FirstProgram, SectionEvents;
    var failed := EachStarts(b.Plan().sections, i, 0, fails);
  }

  // ---------------------------------------------------------------- the end of a run

  /** The temporary files are removed, whatever fails. */
  lemma TemporariesRemoved(b: Build, fails: nat -> bool, x: Item)
    requires WellFormed(b.Plan()) && x in b.CleanItems()
    ensures Removed(b.File(x.file)) in Before(b.Plan(), fails)
  {
    ErasureIn(b, b.CleanItems(), x);
    QuietIn(b.Expanded(b.CleanItems()), RmFile(b.File(x.file)));
    hide SectionsEvents, QuietEvents;
  }

  lemma {:induction false} ErasureIn(b: Build, xs: seq<Item>, x: Item)
    requires x in xs && x.Erase?
    ensures RmFile(b.File(x.file)) in b.Expanded(xs)
  {
    if x != xs[|xs| - 1] {
      ErasureIn(b, xs[..|xs| - 1], x);
    } else {
      assert b.Expand(x)[|b.Expand(x)| - 1] == RmFile(b.File(x.file));
    }
  }

  lemma {:induction false} QuietIn(cs: seq<Command>, c: Command)
    requires AllQuiet(cs) && c in cs && c.RmFile?
    ensures Removed(c.file) in QuietEvents(cs)
  {
    assert Quiet(cs[0]);
    if c != cs[0] {
      QuietIn(cs[1..], c);
    }
  }

  /** For a relocatable program the conversion of the linker's output is started even when the linker was not. */
  lemma ConvertedAnyway(b: Build, s: State, n: nat, fails: nat -> bool)
    requires !b.opt.keep && b.opt.reloc
    ensures Ran(b.RunOf(b.ObjtoItem()), fails(n))
      in Perform(b.Others() + [Trap] + Closing(b.Plan().last, b.Plan().self), s, n, fails)
  {
    var rest := ConvertFirst(b);
    ErasureQuiet(b, b.LinkArguments());
    RunIs(b, b.ObjtoItem());
    hide *;
    var redir := if Long(b.LinkArguments()) then b.Erasure(b.names.redname) else [];
    FirstAnyway(redir, b.RunOf(b.ObjtoItem()), rest, [Trap] + Closing(b.Plan().last, b.Plan().self), s, n, fails);
    Bracketed(b.Others(), [Trap], Closing(b.Plan().last, b.Plan().self));
  }

  lemma Bracketed(x: seq<Command>, y: seq<Command>, z: seq<Command>)
    ensures x + y + z == x + (y + z)
  {
  }

  lemma FirstAnyway(quiet: seq<Command>, c: Command, rest: seq<Command>, more: seq<Command>, s: State, n: nat, fails: nat -> bool)
    requires AllQuiet(quiet) && c.Exec?
    ensures Ran(c, fails(n)) in Perform(quiet + ([c] + rest) + more, s, n, fails)
  {
    hide *;
    assert quiet + ([c] + rest) + more == quiet + ([c] + (rest + more));
    QuietRuns(quiet, [c] + (rest + more), s, n, fails);
    FirstRuns(c, rest + more, s, n, fails);
  }

  lemma ConvertFirst(b: Build) returns (rest: seq<Command>)
    requires !b.opt.keep && b.opt.reloc
    ensures b.Others() == (if Long(b.LinkArguments()) then b.Erasure(b.names.redname) else []) + ([b.RunOf(b.ObjtoItem())] + rest)
  {
    PartsAre(b);
    var x := b.ObjtoItem();
    var others := AfterLinkFirst(b);
    var tail := DoneIs(b, x);
    hide *;
    ExpandedSum(b, [x], others);
    ExpandedOne(b, x);
    rest := tail + b.Expanded(others) + b.Expanded(b.CrossItems());
    Nested(if Long(b.LinkArguments()) then b.Erasure(b.names.redname) else [], b.RunOf(x), tail, b.Expanded(others), b.Expanded(b.CrossItems()));
  }

  lemma Nested(r: seq<Command>, c: Command, t: seq<Command>, o: seq<Command>, x: seq<Command>)
    ensures r + ([c] + t + o) + x == r + ([c] + (t + o + x))
  {
  }

  lemma AfterLinkFirst(b: Build) returns (others: seq<Item>)
    requires b.opt.reloc
    ensures b.AfterLink() == [b.ObjtoItem()] + others && b.ObjtoItem().Do?
  {
    others := b.AfterLink()[1..];
  }

  lemma DoneIs(b: Build, x: Item) returns (tail: seq<Command>)
    requires x.Do?
    ensures b.Expand(x) == [b.RunOf(x)] + tail
  {
    tail := if Long(x.vec) then b.Erasure(b.names.redname) else [];
  }

  lemma ErasureQuiet(b: Build, vec: seq<string>)
    ensures AllQuiet(if Long(vec) then b.Erasure(b.names.redname) else [])
  {
  }

  lemma RunIs(b: Build, x: Item)
    requires x.Do?
    ensures b.RunOf(x).Exec?
  {
  }

  /** The parts of the script, by name. */
  lemma PlanEnds(b: Build)
    ensures b.Plan().self == b.File(b.names.execmd) && b.Plan().others == b.Others()
    ensures b.Plan().link == if b.opt.keep then None else Some(b.Run(b.names.linker, b.LinkArguments()))
    ensures b.Plan().sections == b.SectionCommands(b.Sections(|b.sources|)) && b.Plan().clean == b.Expanded(b.CleanItems())
  {
  }
}
